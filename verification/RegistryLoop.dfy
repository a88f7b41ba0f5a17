/** The server's table on a real event loop: the base loop's queue is the task queue of
    src/eventloop.cpp with its polls, wake-ups and flags, and `Registry` is what it amounts to. */
module RegistryLoop {
  import R = Registry
  import E = EventLoop

  // ---- the base loop's tasks ----

  function Code(t: R.Task): E.Task {
    match t case Insert(c) => 2 * c case Erase(c) => 2 * c + 1
  }

  function Decode(n: E.Task): R.Task {
    if n % 2 == 0 then R.Insert(n / 2) else R.Erase(n / 2)
  }

  lemma DecodeCode(t: R.Task)
    ensures Decode(Code(t)) == t
  {}

  function Decodes(ns: seq<E.Task>): seq<R.Task> {
    seq(|ns|, i requires 0 <= i < |ns| => Decode(ns[i]))
  }

  // ---- the machine ----

  /** The queue fields of `server` are not used: the tasks are in `loop`. */
  datatype Site = Site(server: R.Server, loop: E.Loop)

  datatype Op =
    | Accept(l: R.LoopId)
    | Construct(l: R.LoopId)
    | Return(l: R.LoopId, i: nat)  // the flag of the `i`-th submission is set
    | Close(conn: R.ConnId)
    | OnBase(op: E.Op)             // the base loop, its submitters' wake-ups, its flags

  function Begin(): Site {
    Site(R.Init(), E.Init())
  }

  predicate CanConstruct(s: R.Server, l: R.LoopId) {
    l !in s.blocked && R.Queue(s, l) != []
  }

  predicate CanClose(s: R.Server, c: R.ConnId) {
    c in s.phase && s.phase[c] == R.Open && c in s.home && s.home[c] !in s.blocked
  }

  /** `SubmitAndWait` sees its own flag. */
  predicate CanReturn(x: Site, l: R.LoopId, i: nat) {
    && l in x.server.blocked && i in x.loop.done
    && i < |x.loop.submitted| && x.loop.submitted[i] == Code(R.Insert(x.server.blocked[l]))
  }

  predicate Executes(e: E.Loop, op: E.Op) {
    op.Execute? && e.phase == E.Running && e.batch != []
  }

  /** The task's own effect on the table. */
  function Carry(s: R.Server, t: R.Task): R.Server {
    match t
    case Insert(c) => s.(table := s.table + {c}, done := s.done + {c})
    case Erase(c) => s.(table := s.table - {c})
  }

  function Step(x: Site, op: Op): Site {
    var s, e := x.server, x.loop;
    match op
    case Accept(l) => x.(server := R.Step(s, R.Accept(l)))
    case Construct(l) =>
      if CanConstruct(s, l)
      then Site(R.Step(s, R.Construct(l)), E.Step(e, E.Push(Code(R.Insert(R.Queue(s, l)[0])), true)))
      else x
    case Return(l, i) =>
      if CanReturn(x, l, i)
      then Site(s.(blocked := s.blocked - {l}, phase := s.phase[s.blocked[l] := R.Open]), E.Step(e, E.Return(i)))
      else x
    case Close(c) =>
      if CanClose(s, c) then Site(R.Step(s, R.Close(c)), E.Step(e, E.Push(Code(R.Erase(c)), false))) else x
    case OnBase(op) =>
      if op.Push? then x
      else Site(if Executes(e, op) then Carry(s, Decode(e.batch[0])) else s, E.Step(e, op))
  }

  function Run(x: Site, ops: seq<Op>): Site
    decreases |ops|
  {
    if ops == [] then x else Run(Step(x, ops[0]), ops[1..])
  }

  // ---- what it amounts to ----

  function View(x: Site): R.Server {
    x.server.(missions := Decodes(x.loop.missions), batch := Decodes(x.loop.batch))
  }

  /** The registry's step for a step of the machine, if it is one at all. */
  function Abstract(x: Site, op: Op): seq<R.Op> {
    match op
    case Accept(l) => [R.Accept(l)]
    case Construct(l) => [R.Construct(l)]
    case Return(l, i) => if CanReturn(x, l, i) then [R.Return(l)] else []
    case Close(c) => [R.Close(c)]
    case OnBase(op) =>
      if Executes(x.loop, op) || (op.Swap? && x.loop.phase == E.Handling) then [R.Base] else []
  }

  function Trace(x: Site, ops: seq<Op>): seq<R.Op>
    decreases |ops|
  {
    if ops == [] then [] else Abstract(x, ops[0]) + Trace(Step(x, ops[0]), ops[1..])
  }

  /** An insertion that has run is done. */
  ghost predicate Ran(s: R.Server, t: R.Task) {
    t.Insert? ==> t.conn in s.done
  }

  ghost predicate Tied(x: Site) {
    E.Inv(x.loop) && forall i :: 0 <= i < |x.loop.executed| ==> Ran(x.server, Decode(x.loop.executed[i]))
  }

  lemma Pushed(e: E.Loop, t: R.Task, wait: bool)
    ensures var e' := E.Step(e, E.Push(Code(t), wait));
            Decodes(e'.missions) == Decodes(e.missions) + [t] && e'.batch == e.batch && e'.executed == e.executed
  {
    DecodeCode(t);
  }

  /** A set flag is that of a task that has run. */
  lemma FlagMeansDone(x: Site, l: R.LoopId, i: nat)
    requires Tied(x) && CanReturn(x, l, i)
    ensures x.server.blocked[l] in x.server.done
  {
    var e := x.loop;
    assert i in e.marking + e.done;
    assert e.submitted == e.executed + (e.batch + e.missions);
    DecodeCode(R.Insert(x.server.blocked[l]));
    assert Ran(x.server, Decode(e.executed[i]));
  }

  lemma BaseTied(x: Site, op: E.Op)
    requires Tied(x) && !op.Push?
    ensures Tied(Step(x, OnBase(op)))
  {
    var y := Step(x, OnBase(op));
    E.StepKeeps(x.loop, op);
    forall i | 0 <= i < |y.loop.executed| ensures Ran(y.server, Decode(y.loop.executed[i])) {
      if i < |x.loop.executed| { assert Ran(x.server, Decode(x.loop.executed[i])); }
    }
  }

  lemma StepTied(x: Site, op: Op)
    requires Tied(x)
    ensures Tied(Step(x, op))
  {
    var s, e, y := x.server, x.loop, Step(x, op);
    match op
    case OnBase(b) => if !b.Push? { BaseTied(x, b); }
    case Construct(l) =>
      if CanConstruct(s, l) { E.StepKeeps(e, E.Push(Code(R.Insert(R.Queue(s, l)[0])), true)); }
      assert y.server.done == s.done;
    case Close(c) =>
      if CanClose(s, c) { E.StepKeeps(e, E.Push(Code(R.Erase(c)), false)); }
      assert y.server.done == s.done;
    case Return(l, i) =>
      E.StepKeeps(e, E.Return(i));
      assert y.server.done == s.done;
    case Accept(l) => assert y.server.done == s.done;
  }

  lemma BaseRefines(x: Site, op: E.Op)
    requires Tied(x) && !op.Push?
    ensures View(Step(x, OnBase(op))) == R.Run(View(x), Abstract(x, OnBase(op)))
  {
    One(View(x), R.Base);
    if Executes(x.loop, op) {
      ExecuteRefines(x);
    } else if op.Swap? && x.loop.phase == E.Handling {
      SwapRefines(x);
    } else {
      assert E.Step(x.loop, op).missions == x.loop.missions && E.Step(x.loop, op).batch == x.loop.batch;
    }
  }

  lemma ExecuteRefines(x: Site)
    requires Executes(x.loop, E.Execute)
    ensures View(Step(x, OnBase(E.Execute))) == R.BaseStep(View(x))
  {
    var b := x.loop.batch;
    assert Decodes(b)[0] == Decode(b[0]) && Decodes(b[1..]) == Decodes(b)[1..];
  }

  lemma SwapRefines(x: Site)
    requires Tied(x) && x.loop.phase == E.Handling
    ensures View(Step(x, OnBase(E.Swap))) == R.BaseStep(View(x))
  {
    assert x.loop.batch == [] && Decodes([]) == [];
  }

  lemma One(s: R.Server, op: R.Op)
    ensures R.Run(s, [op]) == R.Step(s, op)
  {
    assert [op][1..] == [];
    assert R.Run(R.Step(s, op), []) == R.Step(s, op);
  }

  lemma StepRefines(x: Site, op: Op)
    requires Tied(x)
    ensures View(Step(x, op)) == R.Run(View(x), Abstract(x, op))
  {
    var s, v := x.server, View(x);
    match op
    case OnBase(b) => if !b.Push? { BaseRefines(x, b); }
    case Accept(l) =>
      One(v, R.Accept(l));
      assert R.Queue(v, l) == R.Queue(s, l);
    case Construct(l) =>
      One(v, R.Construct(l));
      assert R.Queue(v, l) == R.Queue(s, l);
      if CanConstruct(s, l) { Pushed(x.loop, R.Insert(R.Queue(s, l)[0]), true); }
    case Close(c) =>
      One(v, R.Close(c));
      if CanClose(s, c) { Pushed(x.loop, R.Erase(c), false); }
    case Return(l, i) =>
      if CanReturn(x, l, i) {
        One(v, R.Return(l));
        FlagMeansDone(x, l, i);
      }
  }

  lemma {:induction false} RunFrom(x: Site, ops: seq<Op>)
    requires Tied(x)
    ensures View(Run(x, ops)) == R.Run(View(x), Trace(x, ops))
    decreases |ops|
  {
    if ops != [] {
      StepTied(x, ops[0]);
      StepRefines(x, ops[0]);
      RunFrom(Step(x, ops[0]), ops[1..]);
      R.RunAppend(View(x), Abstract(x, ops[0]), Trace(Step(x, ops[0]), ops[1..]));
    }
  }

  /** Every run on the event loop is a run of the registry: polls, wake-ups, lost or not, and flags are
      nothing to it, a swap takes the next batch, and a waiter that sees its flag was free to go on. */
  lemma RunRefines(ops: seq<Op>)
    ensures View(Run(Begin(), ops)) == R.Run(R.Init(), Trace(Begin(), ops))
  {
    RunFrom(Begin(), ops);
    assert View(Begin()) == R.Init();
  }

  /** So what every run of the registry keeps, every run on the event loop keeps. */
  lemma TableAgreesOnLoop(ops: seq<Op>, c: R.ConnId)
    ensures var s := View(Run(Begin(), ops));
            c in s.phase ==>
              && (s.phase[c] == R.Open ==> c in s.table && R.Owes(s, c, 0, 0))
              && (s.phase[c] == R.Closed ==> R.Owes(s, c, 0, if c in s.table then 1 else 0))
              && (s.phase[c] == R.Posted ==> c !in s.table)
  {
    RunRefines(ops);
    R.TableAgrees(Trace(Begin(), ops), c);
  }

  // ---- and a waiter gets to see its flag ----

  /** What the machine's steps are to the event loop. */
  function LoopOps(x: Site, op: Op): seq<E.Op> {
    match op
    case Accept(_) => []
    case Construct(l) =>
      if CanConstruct(x.server, l) then [E.Push(Code(R.Insert(R.Queue(x.server, l)[0])), true)] else []
    case Return(l, i) => if CanReturn(x, l, i) then [E.Return(i)] else []
    case Close(c) => if CanClose(x.server, c) then [E.Push(Code(R.Erase(c)), false)] else []
    case OnBase(op) => if op.Push? then [] else [op]
  }

  function LoopTrace(x: Site, ops: seq<Op>): seq<E.Op>
    decreases |ops|
  {
    if ops == [] then [] else LoopOps(x, ops[0]) + LoopTrace(Step(x, ops[0]), ops[1..])
  }

  lemma StepOnLoop(x: Site, op: Op)
    ensures Step(x, op).loop == E.Run(x.loop, LoopOps(x, op))
  {
    var es := LoopOps(x, op);
    if es != [] {
      assert es == [es[0]];
      E.RunOne(x.loop, es[0]);
    }
  }

  lemma {:induction false} RunOnLoop(x: Site, ops: seq<Op>)
    ensures Run(x, ops).loop == E.Run(x.loop, LoopTrace(x, ops))
    decreases |ops|
  {
    if ops != [] {
      StepOnLoop(x, ops[0]);
      RunOnLoop(Step(x, ops[0]), ops[1..]);
      E.RunAppend(x.loop, LoopOps(x, ops[0]), LoopTrace(Step(x, ops[0]), ops[1..]));
    }
  }

  /** The `i`-th submission is the insertion of `c`, with its submitter waiting. */
  ghost predicate Awaits(e: E.Loop, c: R.ConnId, i: nat) {
    i < |e.submitted| && e.submitted[i] == Code(R.Insert(c)) && i in e.waiters
  }

  /** Each blocked loop has submitted the insertion it waits for. */
  ghost predicate Waiting(x: Site) {
    forall l :: l in x.server.blocked ==> exists i: nat :: Awaits(x.loop, x.server.blocked[l], i)
  }

  lemma StillAwaits(e: E.Loop, op: E.Op, c: R.ConnId, i: nat)
    requires Awaits(e, c, i)
    ensures Awaits(E.Step(e, op), c, i)
  {}

  lemma {:induction false} AwaitsOn(e: E.Loop, ops: seq<E.Op>, c: R.ConnId, i: nat)
    requires Awaits(e, c, i)
    ensures Awaits(E.Run(e, ops), c, i)
    decreases |ops|
  {
    if ops != [] {
      StillAwaits(e, ops[0], c, i);
      AwaitsOn(E.Step(e, ops[0]), ops[1..], c, i);
    }
  }

  lemma StepWaiting(x: Site, op: Op)
    requires Waiting(x)
    ensures Waiting(Step(x, op))
  {
    var y := Step(x, op);
    forall l | l in y.server.blocked ensures exists i: nat :: Awaits(y.loop, y.server.blocked[l], i) {
      if l in x.server.blocked {
        var i: nat :| Awaits(x.loop, x.server.blocked[l], i);
        StepOnLoop(x, op);
        AwaitsOn(x.loop, LoopOps(x, op), x.server.blocked[l], i);
      } else {
        assert op == Construct(l);
        assert Awaits(y.loop, y.server.blocked[l], |x.loop.submitted|);
      }
    }
  }

  lemma {:induction false} RunWaiting(x: Site, ops: seq<Op>)
    requires Waiting(x) && Tied(x)
    ensures Waiting(Run(x, ops)) && Tied(Run(x, ops))
    decreases |ops|
  {
    if ops != [] {
      StepWaiting(x, ops[0]);
      StepTied(x, ops[0]);
      RunWaiting(Step(x, ops[0]), ops[1..]);
    }
  }

  /** A task that was submitted, with its submitter waiting, has its flag set once it has run and no
      flag is still on its way. */
  lemma RanIsFlagged(e: E.Loop, c: R.ConnId, i: nat)
    requires E.Inv(e) && Awaits(e, c, i) && i < |e.executed| && e.marking == {}
    ensures i in e.done
  {
    assert i in e.marking + e.done;
  }

  /** No I/O loop waits for ever: in every interleaving, once the base loop has been through a poll and
      is at a poll again with no flag on its way, the flag that a blocked loop waits for is set, and
      the loop, unless it has gone on already, can. */
  lemma BlockedIsReleased(ops: seq<Op>, more: seq<Op>, l: R.LoopId)
    requires var x := Run(Begin(), ops);
             l in x.server.blocked && E.Polls(x.loop, LoopTrace(x, more))
    ensures var x := Run(Begin(), ops);
            var y := Run(x, more);
            y.loop.phase == E.AtPoll && y.loop.marking == {} ==>
              exists i: nat ::
                && Awaits(y.loop, x.server.blocked[l], i) && i in y.loop.done
                && (l in y.server.blocked && y.server.blocked[l] == x.server.blocked[l] ==> CanReturn(y, l, i))
  {
    var x := Run(Begin(), ops);
    var y, trace := Run(x, more), LoopTrace(x, more);
    RunWaiting(Begin(), ops);
    var i: nat :| Awaits(x.loop, x.server.blocked[l], i);
    RunOnLoop(x, more);
    AwaitsOn(x.loop, trace, x.server.blocked[l], i);
    E.RunKeeps(x.loop, trace);
    E.RoundRunsQueued(x.loop, trace);
    if y.loop.phase == E.AtPoll && y.loop.marking == {} {
      RanIsFlagged(y.loop, x.server.blocked[l], i);
    }
  }

  /** Going on opens the connection and frees the loop. */
  lemma ReturnOpens(x: Site, l: R.LoopId, i: nat)
    requires CanReturn(x, l, i)
    ensures var y := Step(x, Return(l, i));
            && l !in y.server.blocked && x.server.blocked[l] in y.server.phase
            && y.server.phase[x.server.blocked[l]] == R.Open && i in y.loop.returned
  {}
}
