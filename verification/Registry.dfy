/** The server's table of connections (src/tcpserver.cpp): kept by the base loop, changed on
    behalf of I/O loops that block in `SubmitAndWait` while a new connection is inserted. */
module Registry {

  type ConnId = nat
  type LoopId = nat

  datatype Task = Insert(conn: ConnId) | Erase(conn: ConnId)

  /** Queued on its I/O loop; constructed and being inserted; open; closed. */
  datatype Phase = Posted | Inserting | Open | Closed

  datatype Server = Server(
    next: ConnId,
    phase: map<ConnId, Phase>,
    home: map<ConnId, LoopId>,
    queues: map<LoopId, seq<ConnId>>,  // initialisation tasks of each I/O loop
    blocked: map<LoopId, ConnId>,      // I/O loops waiting for an insertion
    missions: seq<Task>,               // the base loop's queue and current batch
    batch: seq<Task>,
    table: set<ConnId>,
    done: set<ConnId>)                 // insertions whose waiter may return

  datatype Op =
    | Accept(loop: LoopId)    // base loop: a descriptor arrived, its loop was picked
    | Construct(loop: LoopId) // I/O loop: first half of the initialisation task, up to the wait
    | Return(loop: LoopId)    // I/O loop: the wait is over, the connection gets its close callback
    | Close(conn: ConnId)     // I/O loop: the close callback submits the erasure
    | Base                    // base loop: the next task of the batch, or the next batch

  function Init(): Server {
    Server(0, map[], map[], map[], map[], [], [], {}, {})
  }

  function Queue(s: Server, l: LoopId): seq<ConnId> {
    if l in s.queues then s.queues[l] else []
  }

  function BaseStep(s: Server): Server {
    if s.batch == [] then s.(batch := s.missions, missions := [])
    else
      var s1 := s.(batch := s.batch[1..]);
      match s.batch[0]
      case Insert(c) => s1.(table := s.table + {c}, done := s.done + {c})
      case Erase(c) => s1.(table := s.table - {c})
  }

  function Step(s: Server, op: Op): Server {
    match op
    case Accept(l) =>
      s.(next := s.next + 1, phase := s.phase[s.next := Posted], home := s.home[s.next := l],
         queues := s.queues[l := Queue(s, l) + [s.next]])
    case Construct(l) =>
      if l in s.blocked || Queue(s, l) == [] then s
      else
        var c := Queue(s, l)[0];
        s.(queues := s.queues[l := Queue(s, l)[1..]], phase := s.phase[c := Inserting],
           blocked := s.blocked[l := c], missions := s.missions + [Insert(c)])
    case Return(l) =>
      if l in s.blocked && s.blocked[l] in s.done
      then s.(blocked := s.blocked - {l}, phase := s.phase[s.blocked[l] := Open])
      else s
    case Close(c) =>
      if c in s.phase && s.phase[c] == Open && c in s.home && s.home[c] !in s.blocked
      then s.(phase := s.phase[c := Closed], missions := s.missions + [Erase(c)])
      else s
    case Base => BaseStep(s)
  }

  function Run(s: Server, ops: seq<Op>): Server
    decreases |ops|
  {
    if ops == [] then s else Run(Step(s, ops[0]), ops[1..])
  }

  // ---- the invariant, one connection and one loop at a time ----

  function Pending(s: Server): seq<Task> {
    s.batch + s.missions
  }

  function Count(ts: seq<Task>, t: Task): nat {
    multiset(ts)[t]
  }

  /** What the base loop still has to do for `c`: `ins` insertions and `del` erasures. */
  ghost predicate Owes(s: Server, c: ConnId, ins: nat, del: nat) {
    Count(Pending(s), Insert(c)) == ins && Count(Pending(s), Erase(c)) == del
  }

  ghost predicate Unknown(s: Server, c: ConnId) {
    Owes(s, c, 0, 0) && c !in s.table && c !in s.done
  }

  ghost predicate Consistent(s: Server, c: ConnId) {
    if c !in s.phase then Unknown(s, c)
    else
      && c < s.next && c in s.home
      && match s.phase[c]
         case Posted => Unknown(s, c)
         case Inserting =>
           && s.home[c] in s.blocked && s.blocked[s.home[c]] == c
           && (if c in s.done then c in s.table && Owes(s, c, 0, 0) else c !in s.table && Owes(s, c, 1, 0))
         case Open => c in s.done && c in s.table && Owes(s, c, 0, 0)
         case Closed => c in s.done && Owes(s, c, 0, if c in s.table then 1 else 0)
  }

  /** A loop queues connections of its own not yet constructed, oldest first, and waits for at most
      one of its own, being inserted. */
  ghost predicate LoopOk(s: Server, l: LoopId) {
    && (forall i :: 0 <= i < |Queue(s, l)| ==> At(s, Queue(s, l)[i], Posted, l))
    && Increasing(Queue(s, l))
    && (l in s.blocked ==> At(s, s.blocked[l], Inserting, l))
  }

  ghost predicate Increasing(q: seq<ConnId>) {
    forall i, j :: 0 <= i < j < |q| ==> q[i] < q[j]
  }

  ghost predicate At(s: Server, c: ConnId, p: Phase, l: LoopId) {
    c < s.next && c in s.phase && s.phase[c] == p && c in s.home && s.home[c] == l
  }

  ghost predicate Inv(s: Server) {
    (forall c :: Consistent(s, c)) && (forall l :: LoopOk(s, l))
  }

  lemma CountSnoc(ts: seq<Task>, t: Task, u: Task)
    ensures Count(ts + [t], u) == Count(ts, u) + if t == u then 1 else 0
  {}

  lemma CountTail(ts: seq<Task>, u: Task)
    requires ts != []
    ensures Count(ts[1..], u) == Count(ts, u) - if ts[0] == u then 1 else 0
    ensures Count(ts, ts[0]) > 0
  {
    assert ts == [ts[0]] + ts[1..];
  }

  lemma PendingSnoc(s: Server, t: Task)
    ensures Pending(s.(missions := s.missions + [t])) == Pending(s) + [t]
  {}

  // ---- steps of the base loop ----

  lemma BaseConsistent(s: Server, c: ConnId)
    requires Consistent(s, c)
    ensures Consistent(BaseStep(s), c)
  {
    if s.batch == [] {
      assert Pending(BaseStep(s)) == Pending(s);
    } else {
      TaskDone(s, c);
    }
  }

  lemma TaskDone(s: Server, c: ConnId)
    requires s.batch != []
    ensures var t, ps := s.batch[0], Pending(s);
            && Count(Pending(BaseStep(s)), Insert(c)) == Count(ps, Insert(c)) - (if t == Insert(c) then 1 else 0)
            && Count(Pending(BaseStep(s)), Erase(c)) == Count(ps, Erase(c)) - (if t == Erase(c) then 1 else 0)
            && Count(ps, t) > 0
  {
    assert Pending(s)[0] == s.batch[0] && Pending(BaseStep(s)) == Pending(s)[1..];
    CountTail(Pending(s), Insert(c));
    CountTail(Pending(s), Erase(c));
  }

  lemma BaseLoops(s: Server, l: LoopId)
    requires LoopOk(s, l)
    ensures LoopOk(BaseStep(s), l)
  {
    assert Queue(BaseStep(s), l) == Queue(s, l);
    forall i | 0 <= i < |Queue(s, l)| ensures At(BaseStep(s), Queue(s, l)[i], Posted, l) {
      assert At(s, Queue(s, l)[i], Posted, l);
    }
  }

  // ---- steps of the other loops ----

  lemma AcceptConsistent(s: Server, l: LoopId, c: ConnId)
    requires Inv(s)
    ensures Consistent(Step(s, Accept(l)), c)
  {
    assert Consistent(s, c);
    assert Consistent(s, s.next);
    assert Pending(Step(s, Accept(l))) == Pending(s);
  }

  lemma ConstructConsistent(s: Server, l: LoopId, c: ConnId)
    requires Inv(s) && l !in s.blocked && Queue(s, l) != []
    ensures Consistent(Step(s, Construct(l)), c)
  {
    var d := Queue(s, l)[0];
    assert LoopOk(s, l);
    assert At(s, d, Posted, l);
    assert Consistent(s, c);
    PendingSnoc(s, Insert(d));
    assert Pending(Step(s, Construct(l))) == Pending(s) + [Insert(d)];
    CountSnoc(Pending(s), Insert(d), Insert(c));
    CountSnoc(Pending(s), Insert(d), Erase(c));
  }

  lemma ReturnConsistent(s: Server, l: LoopId, c: ConnId)
    requires Inv(s) && l in s.blocked && s.blocked[l] in s.done
    ensures Consistent(Step(s, Return(l)), c)
  {
    assert LoopOk(s, l);
    assert At(s, s.blocked[l], Inserting, l);
    assert Consistent(s, c);
    assert Pending(Step(s, Return(l))) == Pending(s);
  }

  lemma CloseConsistent(s: Server, d: ConnId, c: ConnId)
    requires Inv(s) && d in s.phase && s.phase[d] == Open
    ensures Consistent(s.(phase := s.phase[d := Closed], missions := s.missions + [Erase(d)]), c)
  {
    assert Consistent(s, c);
    PendingSnoc(s, Erase(d));
    assert Pending(s.(phase := s.phase[d := Closed], missions := s.missions + [Erase(d)])) == Pending(s) + [Erase(d)];
    CountSnoc(Pending(s), Erase(d), Insert(c));
    CountSnoc(Pending(s), Erase(d), Erase(c));
  }

  lemma StepConsistent(s: Server, op: Op, c: ConnId)
    requires Inv(s)
    ensures Consistent(Step(s, op), c)
  {
    assert Consistent(s, c);
    match op
    case Accept(l) => AcceptConsistent(s, l, c);
    case Construct(l) => if l !in s.blocked && Queue(s, l) != [] { ConstructConsistent(s, l, c); }
    case Return(l) => if l in s.blocked && s.blocked[l] in s.done { ReturnConsistent(s, l, c); }
    case Close(d) => if d in s.phase && s.phase[d] == Open { CloseConsistent(s, d, c); }
    case Base => BaseConsistent(s, c);
  }

  /** What a step may do to a connection without disturbing the loops it belongs to. */
  lemma StepLoops(s: Server, op: Op, l: LoopId)
    requires Inv(s)
    ensures LoopOk(Step(s, op), l)
  {
    assert LoopOk(s, l);
    var t := Step(s, op);
    match op
    case Base => BaseLoops(s, l);
    case Accept(m) => AcceptLoops(s, m, l);
    case Construct(m) => ConstructLoops(s, m, l);
    case Return(m) =>
      assert LoopOk(s, m);
      assert Queue(t, l) == Queue(s, l);
      forall i | 0 <= i < |Queue(t, l)| ensures At(t, Queue(t, l)[i], Posted, l) {
        assert At(s, Queue(s, l)[i], Posted, l);
      }
    case Close(d) =>
      assert Queue(t, l) == Queue(s, l);
      forall i | 0 <= i < |Queue(t, l)| ensures At(t, Queue(t, l)[i], Posted, l) {
        assert At(s, Queue(s, l)[i], Posted, l);
      }
  }

  lemma AcceptLoops(s: Server, m: LoopId, l: LoopId)
    requires Inv(s)
    ensures LoopOk(Step(s, Accept(m)), l)
  {
    assert LoopOk(s, l);
    var t := Step(s, Accept(m));
    assert Queue(t, l) == if l == m then Queue(s, l) + [s.next] else Queue(s, l);
    forall i | 0 <= i < |Queue(t, l)| ensures At(t, Queue(t, l)[i], Posted, l) {
      if i < |Queue(s, l)| { assert At(s, Queue(s, l)[i], Posted, l); }
    }
    forall i | 0 <= i < |Queue(s, l)| ensures Queue(s, l)[i] < s.next {
      assert At(s, Queue(s, l)[i], Posted, l);
    }
  }

  lemma ConstructLoops(s: Server, m: LoopId, l: LoopId)
    requires Inv(s)
    ensures LoopOk(Step(s, Construct(m)), l)
  {
    assert LoopOk(s, l) && LoopOk(s, m);
    if m !in s.blocked && Queue(s, m) != [] {
      var t, c := Step(s, Construct(m)), Queue(s, m)[0];
      assert At(s, c, Posted, m);
      assert Queue(t, l) == if l == m then Queue(s, l)[1..] else Queue(s, l);
      forall i | 0 <= i < |Queue(t, l)| ensures At(t, Queue(t, l)[i], Posted, l) {
        var k := if l == m then i + 1 else i;
        assert At(s, Queue(s, l)[k], Posted, l);
      }
    }
  }

  lemma StepKeeps(s: Server, op: Op)
    requires Inv(s)
    ensures Inv(Step(s, op))
  {
    var t := Step(s, op);
    forall c ensures Consistent(t, c) { StepConsistent(s, op, c); }
    forall l ensures LoopOk(t, l) { StepLoops(s, op, l); }
  }

  lemma {:induction false} RunKeeps(s: Server, ops: seq<Op>)
    requires Inv(s)
    ensures Inv(Run(s, ops))
    decreases |ops|
  {
    if ops != [] {
      StepKeeps(s, ops[0]);
      RunKeeps(Step(s, ops[0]), ops[1..]);
    }
  }

  // ---- what it means ----

  /** In every interleaving: an open connection is in the table with nothing pending for it; a
      closed one is in the table with exactly one erasure pending, or gone with none. */
  lemma TableAgrees(ops: seq<Op>, c: ConnId)
    ensures var s := Run(Init(), ops);
            c in s.phase ==>
              && (s.phase[c] == Open ==> c in s.table && Owes(s, c, 0, 0))
              && (s.phase[c] == Closed ==> Owes(s, c, 0, if c in s.table then 1 else 0))
              && (s.phase[c] == Posted ==> c !in s.table)
  {
    InitInv();
    RunKeeps(Init(), ops);
    assert Consistent(Run(Init(), ops), c);
  }

  lemma InitInv()
    ensures Inv(Init())
  {
    forall c ensures Consistent(Init(), c) {}
    forall l ensures LoopOk(Init(), l) {}
  }

  /** The base loop never erases a connection that is not there, nor inserts one that is: every
      insertion comes before the erasure, and each happens once. */
  lemma TasksFindTheirConnection(ops: seq<Op>)
    ensures var s := Run(Init(), ops);
            s.batch != [] ==> match s.batch[0]
                              case Insert(c) => c !in s.table && c !in s.done
                              case Erase(c) => c in s.table && c in s.phase && s.phase[c] == Closed
  {
    InitInv();
    RunKeeps(Init(), ops);
    var s := Run(Init(), ops);
    if s.batch != [] {
      assert Pending(s)[0] == s.batch[0];
      CountTail(Pending(s), s.batch[0]);
      assert Consistent(s, s.batch[0].conn);
    }
  }

  // ---- no deadlock ----

  /** Let the base loop alone run until it has nothing left to do. */
  function Settle(s: Server, turns: nat): Server
    decreases turns
  {
    if turns == 0 then s else Settle(BaseStep(s), turns - 1)
  }

  function Work(s: Server): nat {
    |s.batch| + if s.missions == [] then 0 else 1 + |s.missions|
  }

  /** The base loop waits for nobody: by its own steps it gets through all it has, whatever is blocked. */
  lemma {:induction false} BaseSettles(s: Server)
    requires Inv(s)
    ensures var t := Settle(s, Work(s));
            Inv(t) && Pending(t) == [] && t.blocked == s.blocked
    decreases Work(s)
  {
    if Work(s) > 0 {
      StepKeeps(s, Base);
      assert Step(s, Base) == BaseStep(s);
      WorkDrops(s);
      BaseSettles(BaseStep(s));
    }
  }

  lemma WorkDrops(s: Server)
    requires Work(s) > 0
    ensures Work(BaseStep(s)) == Work(s) - 1 && BaseStep(s).blocked == s.blocked
  {}

  /** The task stands among the first `k`. */
  ghost predicate Within(ts: seq<Task>, t: Task, k: int) {
    exists i :: 0 <= i < |ts| && ts[i] == t && i < k
  }

  lemma WithinTail(ts: seq<Task>, t: Task, k: int)
    requires ts != [] && Within(ts, t, k)
    ensures ts[0] == t || Within(ts[1..], t, k - 1)
  {
    var i :| 0 <= i < |ts| && ts[i] == t && i < k;
    if i > 0 { assert ts[1..][i - 1] == t; }
  }

  lemma WithinMore(ts: seq<Task>, more: seq<Task>, t: Task, k: int)
    requires ts <= more && Within(ts, t, k)
    ensures Within(more, t, k)
  {
    var i :| 0 <= i < |ts| && ts[i] == t && i < k;
    assert more[i] == t;
  }

  /** The base loop will have inserted `c` within `k` more of its steps. */
  ghost predicate Due(s: Server, c: ConnId, k: nat) {
    c in s.done || Within(s.batch, Insert(c), k) || Within(s.missions, Insert(c), k - |s.batch| - 1)
  }

  lemma BaseBringsNearer(s: Server, c: ConnId, k: nat)
    requires Due(s, c, k)
    ensures Due(BaseStep(s), c, if k == 0 then 0 else k - 1)
  {
    if c !in s.done && s.batch != [] && Within(s.batch, Insert(c), k) {
      WithinTail(s.batch, Insert(c), k);
    }
  }

  lemma OthersDelayNothing(s: Server, op: Op, c: ConnId, k: nat)
    requires Due(s, c, k) && op != Base
    ensures Due(Step(s, op), c, k)
  {
    var t := Step(s, op);
    assert t.done == s.done && t.batch == s.batch && s.missions <= t.missions;
    if Within(s.missions, Insert(c), k - |s.batch| - 1) {
      WithinMore(s.missions, t.missions, Insert(c), k - |s.batch| - 1);
    }
  }

  function Bases(ops: seq<Op>): nat {
    if ops == [] then 0 else (if ops[0] == Base then 1 else 0) + Bases(ops[1..])
  }

  lemma {:induction false} InsertedInTime(s: Server, ops: seq<Op>, c: ConnId, k: nat)
    requires Due(s, c, k) && k <= Bases(ops)
    ensures c in Run(s, ops).done
    decreases |ops|
  {
    if ops == [] {
      assert k == 0;
    } else if ops[0] == Base {
      BaseBringsNearer(s, c, k);
      InsertedInTime(BaseStep(s), ops[1..], c, if k == 0 then 0 else k - 1);
    } else {
      OthersDelayNothing(s, ops[0], c, k);
      InsertedInTime(Step(s, ops[0]), ops[1..], c, k);
    }
  }

  lemma WaiterIsDue(s: Server, l: LoopId)
    requires Inv(s) && l in s.blocked
    ensures Due(s, s.blocked[l], Work(s))
  {
    var c := s.blocked[l];
    assert LoopOk(s, l) && At(s, c, Inserting, l);
    assert Consistent(s, c);
    if c !in s.done {
      assert Insert(c) in Pending(s);
      PendingWithin(s, Insert(c));
    }
  }

  /** So every I/O loop that waits is released: once the base loop has taken as many steps as it
      had work, whatever all loops do in between, the insertion waited for is done and the waiter,
      if it has not gone on already, can. */
  lemma WaitersAreServed(before: seq<Op>, ops: seq<Op>, l: LoopId)
    ensures var s := Run(Init(), before);
            var t := Run(s, ops);
            l in s.blocked && Bases(ops) >= Work(s) ==>
              && s.blocked[l] in t.done
              && (l in t.blocked && t.blocked[l] == s.blocked[l] ==> l !in Step(t, Return(l)).blocked)
  {
    InitInv();
    RunKeeps(Init(), before);
    var s := Run(Init(), before);
    if l in s.blocked && Bases(ops) >= Work(s) {
      WaiterIsDue(s, l);
      InsertedInTime(s, ops, s.blocked[l], Work(s));
    }
  }

  // ---- every connection gets to its own loop, is opened there, and goes once closed ----

  /** The loops picked for the connections accepted, in order. */
  function Accepts(ops: seq<Op>): seq<LoopId>
    decreases |ops|
  {
    if ops == [] then []
    else
      var last := ops[|ops| - 1];
      Accepts(ops[..|ops| - 1]) + if last.Accept? then [last.loop] else []
  }

  lemma {:induction false} RunAppend(s: Server, a: seq<Op>, b: seq<Op>)
    ensures Run(s, a + b) == Run(Run(s, a), b)
    decreases |a|
  {
    if a == [] {
      assert a + b == b;
    } else {
      assert (a + b)[1..] == a[1..] + b;
      RunAppend(Step(s, a[0]), a[1..], b);
    }
  }

  lemma RunSnoc(s: Server, ops: seq<Op>)
    requires ops != []
    ensures Run(s, ops) == Step(Run(s, ops[..|ops| - 1]), ops[|ops| - 1])
  {
    var before, last := ops[..|ops| - 1], ops[|ops| - 1];
    assert ops == before + [last];
    RunAppend(s, before, [last]);
    assert [last][1..] == [];
    assert Run(Step(Run(s, before), last), []) == Step(Run(s, before), last);
  }

  /** A connection not yet constructed waits in the queue of its own loop. */
  ghost predicate Queued(s: Server, c: ConnId) {
    c in s.phase && s.phase[c] == Posted ==> c in s.home && c in Queue(s, s.home[c])
  }

  lemma ConstructQueued(s: Server, l: LoopId, c: ConnId)
    requires Inv(s) && Queued(s, c) && l !in s.blocked && Queue(s, l) != []
    ensures Queued(Step(s, Construct(l)), c)
  {
    var q, t := Queue(s, l), Step(s, Construct(l));
    if c in t.phase && t.phase[c] == Posted {
      assert q == [q[0]] + q[1..];
      assert Queue(t, s.home[c]) == if s.home[c] == l then q[1..] else Queue(s, s.home[c]);
    }
  }

  lemma AcceptQueued(s: Server, l: LoopId, c: ConnId)
    requires Inv(s) && Queued(s, c)
    ensures Queued(Step(s, Accept(l)), c)
  {
    var t := Step(s, Accept(l));
    assert Queue(t, l) == Queue(s, l) + [s.next];
    if c in s.phase && s.phase[c] == Posted && s.home[c] != l {
      assert Queue(t, s.home[c]) == Queue(s, s.home[c]);
    }
  }

  lemma StepQueued(s: Server, op: Op, c: ConnId)
    requires Inv(s) && Queued(s, c)
    ensures Queued(Step(s, op), c)
  {
    var t := Step(s, op);
    match op
    case Accept(l) => AcceptQueued(s, l, c);
    case Construct(l) => if l !in s.blocked && Queue(s, l) != [] { ConstructQueued(s, l, c); }
    case _ => assert forall m :: Queue(t, m) == Queue(s, m);
  }

  /** Each connection belongs to the loop that was picked for it, and until it is constructed there
      it stands in that loop's queue, which holds nothing else. */
  lemma {:induction false} HomeExactly(ops: seq<Op>, c: ConnId)
    ensures var s, ls := Run(Init(), ops), Accepts(ops);
            && s.next == |ls| && (c in s.phase <==> c < |ls|) && (c in s.home <==> c < |ls|)
            && (c < |ls| ==> s.home[c] == ls[c])
            && (forall l :: InQueue(s, l, c))
    decreases |ops|
  {
    InitInv();
    if ops != [] {
      var before := ops[..|ops| - 1];
      RunKeeps(Init(), before);
      HomeExactly(before, c);
      RunSnoc(Init(), ops);
      HomeStep(Run(Init(), before), ops[|ops| - 1], c);
    }
  }

  ghost predicate Homed(s: Server, c: ConnId) {
    (c in s.phase <==> c < s.next) && (c in s.home <==> c < s.next)
  }

  /** The queues hold exactly the connections not yet constructed. */
  ghost predicate InQueue(s: Server, l: LoopId, c: ConnId) {
    c in Queue(s, l) <==> c in s.phase && s.phase[c] == Posted && c in s.home && s.home[c] == l
  }

  lemma HomeStep(s: Server, op: Op, c: ConnId)
    requires Inv(s) && Homed(s, c) && forall l :: InQueue(s, l, c)
    ensures var t := Step(s, op);
            && Homed(t, c) && (forall l :: InQueue(t, l, c))
            && t.next == s.next + (if op.Accept? then 1 else 0)
            && (c < s.next ==> t.home[c] == s.home[c])
            && (op.Accept? && c == s.next ==> t.home[c] == op.loop)
  {
    var t := Step(s, op);
    StepKeeps(s, op);
    assert Consistent(s, c);
    if c in s.phase && s.phase[c] == Posted { assert InQueue(s, s.home[c], c); }
    StepQueued(s, op, c);
    HomedStep(s, op, c);
    forall l ensures InQueue(t, l, c) {
      assert LoopOk(t, l);
      if c in Queue(t, l) {
        var i :| 0 <= i < |Queue(t, l)| && Queue(t, l)[i] == c;
        assert At(t, c, Posted, l);
      }
    }
  }

  lemma HomedStep(s: Server, op: Op, c: ConnId)
    requires Inv(s) && Homed(s, c)
    ensures var t := Step(s, op);
            && Homed(t, c) && t.next == s.next + (if op.Accept? then 1 else 0)
            && (c < s.next ==> t.home[c] == s.home[c])
            && (op.Accept? && c == s.next ==> t.home[c] == op.loop)
  {
    match op
    case Construct(l) =>
      assert LoopOk(s, l);
      if Queue(s, l) != [] { assert At(s, Queue(s, l)[0], Posted, l); }
    case Return(l) =>
      assert LoopOk(s, l);
      if l in s.blocked { assert At(s, s.blocked[l], Inserting, l); }
    case _ =>
  }

  /** The connection at the head of a free loop's queue is constructed there, inserted by the base
      loop's own steps while that loop waits, and then open, in the table, its loop free again. */
  lemma HeadOpens(s: Server, l: LoopId)
    requires Inv(s) && l !in s.blocked && Queue(s, l) != []
    ensures var c, t := Queue(s, l)[0], Step(s, Construct(l));
            && c in t.phase && t.phase[c] == Inserting && Queue(t, l) == Queue(s, l)[1..]
            && Pending(t) == Pending(s) + [Insert(c)]
            && var u := Settle(t, Work(t));
               && l in u.blocked && u.blocked[l] == c && c in u.done
               && var v := Step(u, Return(l));
                  c in v.phase && v.phase[c] == Open && l !in v.blocked && c in v.table
  {
    var c, t := Queue(s, l)[0], Step(s, Construct(l));
    StepKeeps(s, Construct(l));
    assert Pending(t) == Pending(s) + [Insert(c)];
    BaseSettles(t);
    var u := Settle(t, Work(t));
    assert LoopOk(u, l) && At(u, c, Inserting, l);
    assert Consistent(u, c);
  }

  /** A closed connection is out of the table within `k` more of the base loop's steps. */
  ghost predicate Leaving(s: Server, c: ConnId, k: nat) {
    && c in s.phase && s.phase[c] == Closed
    && (c !in s.table || Within(s.batch, Erase(c), k) || Within(s.missions, Erase(c), k - |s.batch| - 1))
  }

  lemma BaseTakesOut(s: Server, c: ConnId, k: nat)
    requires Inv(s) && Leaving(s, c, k)
    ensures Leaving(BaseStep(s), c, if k == 0 then 0 else k - 1)
  {
    assert Consistent(s, c);
    if s.batch != [] {
      assert Pending(s)[0] == s.batch[0];
      CountTail(Pending(s), s.batch[0]);
      assert s.batch[0] != Insert(c);
      if Within(s.batch, Erase(c), k) { WithinTail(s.batch, Erase(c), k); }
    }
  }

  lemma OthersLeaveIt(s: Server, op: Op, c: ConnId, k: nat)
    requires Inv(s) && Leaving(s, c, k) && op != Base
    ensures Leaving(Step(s, op), c, k)
  {
    var t := Step(s, op);
    assert t.table == s.table && t.batch == s.batch && s.missions <= t.missions;
    if Within(s.missions, Erase(c), k - |s.batch| - 1) {
      WithinMore(s.missions, t.missions, Erase(c), k - |s.batch| - 1);
    }
    ClosedStays(s, op, c);
  }

  lemma ClosedStays(s: Server, op: Op, c: ConnId)
    requires Inv(s) && c in s.phase && s.phase[c] == Closed
    ensures var t := Step(s, op);
            c in t.phase && t.phase[c] == Closed
  {
    match op
    case Accept(l) => assert Consistent(s, s.next) && Consistent(s, c);
    case Construct(l) =>
      assert LoopOk(s, l);
      if Queue(s, l) != [] { assert At(s, Queue(s, l)[0], Posted, l); }
    case Return(l) =>
      assert LoopOk(s, l);
      if l in s.blocked { assert At(s, s.blocked[l], Inserting, l); }
    case _ =>
  }

  lemma {:induction false} TakenOutInTime(s: Server, ops: seq<Op>, c: ConnId, k: nat)
    requires Inv(s) && Leaving(s, c, k) && k <= Bases(ops)
    ensures c !in Run(s, ops).table
    decreases |ops|
  {
    if ops != [] {
      StepKeeps(s, ops[0]);
      if ops[0] == Base {
        BaseTakesOut(s, c, k);
        TakenOutInTime(BaseStep(s), ops[1..], c, if k == 0 then 0 else k - 1);
      } else {
        OthersLeaveIt(s, ops[0], c, k);
        TakenOutInTime(Step(s, ops[0]), ops[1..], c, k);
      }
    }
  }

  /** Closing an open connection makes it closed; and a closed connection is out of the table for good
      once the base loop has taken as many steps as it had work, whatever all loops do in between. */
  lemma ClosedIsErased(before: seq<Op>, ops: seq<Op>, c: ConnId)
    ensures var s := Run(Init(), before);
            && (c in s.phase && s.phase[c] == Open && c in s.home && s.home[c] !in s.blocked ==>
                  var t := Step(s, Close(c)); c in t.phase && t.phase[c] == Closed && t.table == s.table)
            && (c in s.phase && s.phase[c] == Closed && Bases(ops) >= Work(s) ==> c !in Run(s, ops).table)
  {
    InitInv();
    RunKeeps(Init(), before);
    var s := Run(Init(), before);
    if c in s.phase && s.phase[c] == Closed && Bases(ops) >= Work(s) {
      assert Consistent(s, c);
      if c in s.table {
        assert Erase(c) in Pending(s);
        PendingWithin(s, Erase(c));
      }
      TakenOutInTime(s, ops, c, Work(s));
    }
  }

  lemma PendingWithin(s: Server, t: Task)
    requires t in Pending(s)
    ensures Within(s.batch, t, Work(s)) || Within(s.missions, t, Work(s) - |s.batch| - 1)
  {
    var i :| 0 <= i < |Pending(s)| && Pending(s)[i] == t;
    if i < |s.batch| {
      assert s.batch[i] == t;
    } else {
      assert s.missions[i - |s.batch|] == t;
    }
  }

  // ---- the server object ----

  class TcpServer {
    var next: ConnId
    var phase: map<ConnId, Phase>
    var home: map<ConnId, LoopId>
    var queues: map<LoopId, seq<ConnId>>
    var blocked: map<LoopId, ConnId>
    var missions: seq<Task>
    var batch: seq<Task>
    var table: set<ConnId>
    var done: set<ConnId>

    ghost function View(): Server
      reads this
    {
      Server(next, phase, home, queues, blocked, missions, batch, table, done)
    }

    constructor ()
      ensures View() == Init() && Inv(View())
    {
      next, phase, home, queues, blocked := 0, map[], map[], map[], map[];
      missions, batch, table, done := [], [], {}, {};
      new;
      InitInv();
    }

    method OnAccept(l: LoopId)
      requires Inv(View())
      modifies this
      ensures View() == Step(old(View()), Accept(l)) && Inv(View())
    {
      StepKeeps(View(), Accept(l));
      var c := next;
      next, phase, home := next + 1, phase[c := Posted], home[c := l];
      queues := queues[l := (if l in queues then queues[l] else []) + [c]];
    }

    /** The initialisation task up to `SubmitAndWait`. */
    method InitConnection(l: LoopId)
      requires Inv(View()) && l !in blocked && l in queues && queues[l] != []
      modifies this
      ensures View() == Step(old(View()), Construct(l)) && Inv(View())
    {
      StepKeeps(View(), Construct(l));
      var c := queues[l][0];
      queues, phase := queues[l := queues[l][1..]], phase[c := Inserting];
      missions, blocked := missions + [Insert(c)], blocked[l := c];
    }

    /** The initialisation task after the wait. */
    method FinishInit(l: LoopId)
      requires Inv(View()) && l in blocked && blocked[l] in done
      modifies this
      ensures View() == Step(old(View()), Return(l)) && Inv(View())
    {
      StepKeeps(View(), Return(l));
      phase, blocked := phase[blocked[l] := Open], blocked - {l};
    }

    method OnClose(c: ConnId)
      requires Inv(View()) && c in phase && phase[c] == Open && c in home && home[c] !in blocked
      modifies this
      ensures View() == Step(old(View()), Close(c)) && Inv(View())
    {
      StepKeeps(View(), Close(c));
      phase, missions := phase[c := Closed], missions + [Erase(c)];
    }

    method BaseTurn()
      requires Inv(View())
      modifies this
      ensures View() == Step(old(View()), Base) && Inv(View())
    {
      StepKeeps(View(), Base);
      if batch == [] {
        batch, missions := missions, [];
      } else {
        var task := batch[0];
        batch := batch[1..];
        match task {
          case Insert(c) => table, done := table + {c}, done + {c};
          case Erase(c) => table := table - {c};
        }
      }
    }
  }
}
