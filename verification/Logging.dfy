/** The asynchronous logger of src/logger.cpp: any number of appenders and one backend thread,
    each lock-held region an atomic step. */
module Logging {
  import opened Bytes

  const LINE_SIZE: nat := 4096
  const BUFFER_SIZE: nat := LINE_SIZE * 1024
  const BUFFER_LIMIT: nat := 25
  const POOL_LIMIT: nat := 2

  /** Where the backend thread is. `Writing` holds the buffers it has swapped out: those still to
      be written, and how many have been. */
  datatype Backend = NotStarted | Waiting | Writing(todo: seq<seq<Byte>>, spent: nat) | Exited

  /** `current` is the used part of the current buffer, `None` once the destructor has taken it. */
  datatype Log = Log(
    running: bool,
    current: Option<seq<Byte>>,
    next: bool,
    work: seq<seq<Byte>>,
    pool: nat,
    file: seq<Byte>,
    backend: Backend,
    gone: bool,
    accepted: seq<seq<Byte>>)

  /** `Turn` is the backend thread's next region; the destructor is `Stop` and, after the join, `Drain`. */
  datatype Op = Append(message: seq<Byte>) | Start | Turn | Stop | Drain

  function Open(): Log {
    Log(true, Some([]), true, [], 0, [], NotStarted, false, [])
  }

  function Used(s: Log): seq<Byte> {
    if s.current.Some? then s.current.value else []
  }

  /** An empty buffer from the pool, or a new one. */
  function TakeBuffer(s: Log): Log {
    if s.pool > 0 then s.(pool := s.pool - 1) else s
  }

  function FreshCurrent(s: Log): (r: Log)
    ensures r == s.(current := Some([]), next := r.next, pool := r.pool) && r.pool <= s.pool
  {
    (if s.next then s.(next := false) else TakeBuffer(s)).(current := Some([]))
  }

  function FillNext(s: Log): (r: Log)
    ensures r == s.(next := true, pool := r.pool) && r.pool <= s.pool
  {
    if s.next then s else TakeBuffer(s).(next := true)
  }

  function PushCurrent(s: Log): Log {
    FreshCurrent(s.(work := s.work + [Used(s)]))
  }

  /** `Append` under the lock. */
  function AppendLocked(s: Log, message: seq<Byte>): Log {
    if !s.running then s
    else
      var s1 := if s.current.None? then FreshCurrent(s) else s;
      if BUFFER_SIZE - |Used(s1)| >= |message| then FillNext(Take(s1, message))
      else if |s1.work| >= BUFFER_LIMIT then FillNext(s1)
      else FillNext(Take(PushCurrent(s1), message))
  }

  function Take(s: Log, message: seq<Byte>): Log {
    s.(current := Some(Used(s) + message), accepted := s.accepted + [message])
  }

  /** The backend's first region: swap out everything there is, or leave after the last of it. */
  function Collect(s: Log): Log {
    var s1 := if Used(s) != [] then PushCurrent(s) else s;
    if !s.running && s1.work == [] then s1.(backend := Exited)
    else s1.(work := [], backend := Writing(s1.work, 0))
  }

  /** The backend's second region: keep at most two of the written buffers for reuse. */
  function Recycle(s: Log, spent: nat): Log {
    FillNext(s.(pool := Refilled(s.pool, Min(POOL_LIMIT, spent)), backend := Waiting))
  }

  function Refilled(pool: nat, n: nat): nat {
    if pool >= POOL_LIMIT then pool else Min(POOL_LIMIT, pool + n)
  }

  function BackendTurn(s: Log): Log {
    match s.backend
    case NotStarted => s
    case Exited => s
    case Waiting => Collect(s)
    case Writing(todo, spent) =>
      if todo == [] then Recycle(s, spent)
      else s.(file := s.file + todo[0], backend := Writing(todo[1..], spent + 1))
  }

  /** The destructor may go on once the backend thread, if there is one, has been joined. */
  predicate Joinable(s: Log) {
    !s.running && (s.backend.NotStarted? || s.backend.Exited?)
  }

  function Step(s: Log, op: Op): Log {
    match op
    case Append(m) => AppendLocked(s, m)
    case Start => if s.backend.NotStarted? && s.running then s.(backend := Waiting) else s
    case Turn => BackendTurn(s)
    case Stop => s.(running := false)
    case Drain =>
      if !Joinable(s) then s
      else s.(file := s.file + Flatten(s.work) + Used(s), work := [], current := None, next := false, pool := 0,
              gone := true)
  }

  function Run(s: Log, ops: seq<Op>): Log
    decreases |ops|
  {
    if ops == [] then s else Run(Step(s, ops[0]), ops[1..])
  }

  ghost predicate Sized(ops: seq<Op>) {
    forall i :: 0 <= i < |ops| && ops[i].Append? ==> |ops[i].message| <= BUFFER_SIZE
  }

  // ---- the invariant ----

  function InFlight(s: Log): seq<seq<Byte>> {
    if s.backend.Writing? then s.backend.todo else []
  }

  /** File, then swapped-out buffers, then the work list, then the current buffer. */
  function Everything(s: Log): seq<Byte> {
    s.file + Flatten(InFlight(s)) + Flatten(s.work) + Used(s)
  }

  function Buffers(s: Log): nat {
    (if s.current.Some? then 1 else 0) + (if s.next then 1 else 0) + |s.work| + s.pool
    + (if s.backend.Writing? then |s.backend.todo| + s.backend.spent else 0)
  }

  ghost predicate Bounded(s: Log) {
    && |s.work| <= BUFFER_LIMIT && s.pool <= POOL_LIMIT
    && (s.backend.Writing? ==> |s.backend.todo| + s.backend.spent <= BUFFER_LIMIT + 1)
    && |Used(s)| <= BUFFER_SIZE
    && (forall i :: 0 <= i < |s.work| ==> |s.work[i]| <= BUFFER_SIZE)
    && (forall i :: 0 <= i < |InFlight(s)| ==> |InFlight(s)[i]| <= BUFFER_SIZE)
  }

  ghost predicate Phased(s: Log) {
    && (s.running ==> s.current.Some? && !s.gone)
    && (s.backend.Exited? ==> !s.running && s.work == [] && Used(s) == [])
    && (s.gone ==> Joinable(s) && s.work == [] && Used(s) == [])
  }

  ghost predicate Inv(s: Log) {
    Everything(s) == Flatten(s.accepted) && Bounded(s) && Phased(s)
  }

  // ---- every step keeps it ----

  lemma TakeKeeps(s: Log, message: seq<Byte>)
    requires Inv(s) && s.running && |Used(s)| + |message| <= BUFFER_SIZE
    ensures Inv(Take(s, message))
  {
    FlattenSnoc(s.accepted, message);
    Assoc(s.file + Flatten(InFlight(s)) + Flatten(s.work), Used(s), message);
  }

  lemma PushSame(s: Log)
    ensures Everything(PushCurrent(s)) == Everything(s)
  {
    var front := s.file + Flatten(InFlight(s));
    FlattenSnoc(s.work, Used(s));
    Assoc(front, Flatten(s.work), Used(s));
    assert front + (Flatten(s.work) + Used(s)) + [] == front + (Flatten(s.work) + Used(s));
  }

  lemma PushKeeps(s: Log)
    requires Inv(s) && s.running && |s.work| < BUFFER_LIMIT
    ensures Inv(PushCurrent(s))
  {
    PushSame(s);
  }

  lemma FillNextKeeps(s: Log)
    requires Inv(s) && s.running
    ensures Inv(FillNext(s))
  {}

  lemma AppendKeeps(s: Log, message: seq<Byte>)
    requires Inv(s) && |message| <= BUFFER_SIZE
    ensures Inv(AppendLocked(s, message))
  {
    if s.running {
      if BUFFER_SIZE - |Used(s)| >= |message| {
        TakeKeeps(s, message);
        FillNextKeeps(Take(s, message));
      } else if |s.work| < BUFFER_LIMIT {
        PushKeeps(s);
        TakeKeeps(PushCurrent(s), message);
        FillNextKeeps(Take(PushCurrent(s), message));
      } else {
        FillNextKeeps(s);
      }
    }
  }

  lemma CollectKeeps(s: Log)
    requires Inv(s) && s.backend.Waiting?
    ensures Inv(Collect(s))
  {
    PushSame(s);
    var s1 := if Used(s) != [] then PushCurrent(s) else s;
    assert s1.file + Flatten([]) == s1.file;
    assert s1.file + Flatten(s1.work) + Flatten([]) == s1.file + Flatten(s1.work);
  }

  lemma WriteKeeps(s: Log)
    requires Inv(s) && s.backend.Writing? && s.backend.todo != []
    ensures Inv(BackendTurn(s))
  {
    var todo := s.backend.todo;
    Assoc(s.file, todo[0], Flatten(todo[1..]));
  }

  lemma DrainKeeps(s: Log)
    requires Inv(s) && Joinable(s)
    ensures Inv(Step(s, Drain))
  {
    assert s.file + [] == s.file;
    var f := s.file + Flatten(s.work) + Used(s);
    assert f + [] + [] + [] == f;
  }

  lemma TurnKeeps(s: Log)
    requires Inv(s)
    ensures Inv(BackendTurn(s))
    ensures s.accepted == BackendTurn(s).accepted && s.running == BackendTurn(s).running
    ensures s.file <= BackendTurn(s).file
  {
    match s.backend
    case NotStarted =>
    case Exited =>
    case Waiting => CollectKeeps(s);
    case Writing(todo, spent) =>
      if todo == [] {
        RecycleKeeps(s);
        assert BackendTurn(s) == Recycle(s, spent);
      } else {
        WriteKeeps(s);
      }
  }

  lemma RecycleKeeps(s: Log)
    requires Inv(s) && s.backend.Writing? && s.backend.todo == []
    ensures Inv(Recycle(s, s.backend.spent))
  {}

  lemma AppendForward(s: Log, message: seq<Byte>)
    ensures var t := AppendLocked(s, message);
            && (t.accepted == s.accepted || t.accepted == s.accepted + [message])
            && s.file == t.file && s.running == t.running
            && (!s.running ==> t == s)
  {}

  lemma StepKeeps(s: Log, op: Op)
    requires Inv(s) && (op.Append? ==> |op.message| <= BUFFER_SIZE)
    ensures Inv(Step(s, op))
    ensures s.accepted <= Step(s, op).accepted && s.file <= Step(s, op).file
    ensures !s.running ==> !Step(s, op).running && Step(s, op).accepted == s.accepted
  {
    match op
    case Append(m) => AppendKeeps(s, m); AppendForward(s, m);
    case Start =>
    case Turn => TurnKeeps(s);
    case Stop =>
    case Drain =>
      if Joinable(s) {
        DrainKeeps(s);
        Assoc(s.file, Flatten(s.work), Used(s));
      }
  }

  /** In every interleaving, file, buffers in flight, work list and current buffer hold the
      accepted messages in lock order, whole and adjacent; the memory bounds hold; and once
      `running_` has been cleared under the lock nothing more is accepted. */
  lemma {:induction false} RunKeeps(s: Log, ops: seq<Op>)
    requires Inv(s) && Sized(ops)
    ensures Inv(Run(s, ops)) && s.accepted <= Run(s, ops).accepted && s.file <= Run(s, ops).file
    ensures !s.running ==> !Run(s, ops).running && Run(s, ops).accepted == s.accepted
    decreases |ops|
  {
    if ops != [] {
      StepKeeps(s, ops[0]);
      RunKeeps(Step(s, ops[0]), ops[1..]);
    }
  }

  lemma OpenInv()
    ensures Inv(Open())
  {}

  /** At any time the file is the first so many bytes of the accepted messages. */
  lemma FilePrefix(ops: seq<Op>)
    requires Sized(ops)
    ensures Run(Open(), ops).file <= Flatten(Run(Open(), ops).accepted)
  {
    OpenInv();
    RunKeeps(Open(), ops);
    var s := Run(Open(), ops);
    Assoc(s.file, Flatten(InFlight(s)), Flatten(s.work));
    Assoc(s.file, Flatten(InFlight(s)) + Flatten(s.work), Used(s));
  }

  /** At most 55 buffers exist at any time. */
  lemma MemoryBound(ops: seq<Op>)
    requires Sized(ops)
    ensures var s := Run(Open(), ops);
            && |s.work| <= 25 && s.pool <= 2 && |InFlight(s)| <= 26 && Buffers(s) <= 55
            && |Used(s)| <= 4194304 && (forall i :: 0 <= i < |s.work| ==> |s.work[i]| <= 4194304)
            && (forall i :: 0 <= i < |InFlight(s)| ==> |InFlight(s)[i]| <= 4194304)
  {
    OpenInv();
    RunKeeps(Open(), ops);
  }

  /** A message is dropped exactly when the logger is stopping, or when it does not fit and the
      queue is full. */
  lemma DropsExactly(s: Log, message: seq<Byte>)
    requires Inv(s) && |message| <= BUFFER_SIZE
    ensures var t := Step(s, Append(message));
            if !s.running || (|Used(s)| + |message| > 4194304 && |s.work| == 25)
            then t.accepted == s.accepted && Everything(t) == Everything(s)
            else t.accepted == s.accepted + [message]
  {
    AppendKeeps(s, message);
  }

  /** A copy stays inside its buffer exactly for messages no larger than one. */
  lemma CopyFits(s: Log, message: seq<Byte>)
    requires Inv(s) && s.running && |s.work| < BUFFER_LIMIT
    ensures |Used(AppendLocked(s, message))| <= BUFFER_SIZE <==> |message| <= BUFFER_SIZE
  {}

  // ---- memory is reused ----

  /** A new buffer is made exactly when there is neither a spare nor a pooled one. */
  lemma ReusesFirst(s: Log)
    requires s.current.Some?
    ensures Buffers(PushCurrent(s)) == Buffers(s) + if s.next || s.pool > 0 then 0 else 1
    ensures Buffers(FillNext(s)) == Buffers(s) + if s.next || s.pool > 0 then 0 else 1
  {}

  /** After a round of writing up to two of the written buffers are kept, as far as the pool lacks
      them, and a spare one is ready; the rest are freed. */
  lemma RecycleReuses(s: Log, spent: nat)
    requires s.pool <= 2
    ensures var t := Recycle(s, spent);
            && t.next && t.backend.Waiting?
            && t.pool == (if s.pool + spent >= 2 then 2 else s.pool + spent)
                         - (if s.next || s.pool + spent == 0 then 0 else 1)
            && t.work == s.work && t.current == s.current && t.file == s.file
  {}

  // ---- everything accepted reaches the file ----

  /** Within `k` of the backend's turns `base` will be in the file. */
  ghost predicate Soon(s: Log, base: seq<Byte>, k: nat) {
    || base <= s.file
    || (s.backend.Writing? && base <= s.file + Flatten(s.backend.todo) && k >= |s.backend.todo|)
    || (s.backend.Writing? && base <= Everything(s) && k >= |s.backend.todo| + 28)
    || (s.backend.Waiting? && base <= Everything(s) && k >= 27)
  }

  lemma CollectSoon(s: Log, base: seq<Byte>, k: nat)
    requires Inv(s) && s.backend.Waiting? && base <= Everything(s) && k >= 27
    ensures Soon(BackendTurn(s), base, k - 1)
  {
    var t := Collect(s);
    CollectKeeps(s);
    var s1 := if Used(s) != [] then PushCurrent(s) else s;
    if Used(s) != [] { PushSame(s); }
    assert Everything(s1) == s.file + [] + Flatten(s1.work) + [];
    assert s.file + [] + Flatten(s1.work) + [] == s.file + Flatten(s1.work);
    if t.backend.Exited? { assert Flatten(s1.work) == [] && s.file + [] == s.file; }
  }

  lemma WriteSoon(s: Log, base: seq<Byte>, k: nat)
    requires Inv(s) && s.backend.Writing? && Soon(s, base, k)
    ensures Soon(BackendTurn(s), base, if k == 0 then 0 else k - 1)
  {
    var todo := s.backend.todo;
    TurnKeeps(s);
    SameTotal(s);
    if todo != [] {
      Assoc(s.file, todo[0], Flatten(todo[1..]));
    } else {
      assert s.file + [] == s.file;
    }
  }

  lemma SameTotal(s: Log)
    requires Inv(s)
    ensures Everything(BackendTurn(s)) == Everything(s)
  {
    TurnKeeps(s);
  }

  lemma StepSoon(s: Log, op: Op, base: seq<Byte>, k: nat)
    requires Inv(s) && Soon(s, base, k) && (op.Append? ==> |op.message| <= BUFFER_SIZE)
    ensures Soon(Step(s, op), base, if op.Turn? && k > 0 then k - 1 else k)
  {
    StepKeeps(s, op);
    match op
    case Append(m) => AppendSoon(s, m, base, k);
    case Turn =>
      if base <= s.file {
      } else if s.backend.Waiting? {
        CollectSoon(s, base, k);
      } else {
        WriteSoon(s, base, k);
      }
    case _ =>
  }

  lemma AppendSoon(s: Log, m: seq<Byte>, base: seq<Byte>, k: nat)
    requires Inv(s) && Soon(s, base, k) && |m| <= BUFFER_SIZE
    ensures Soon(AppendLocked(s, m), base, k)
  {
    var t := AppendLocked(s, m);
    AppendForward(s, m);
    AppendKeeps(s, m);
    assert t.backend == s.backend;
    if t.accepted != s.accepted { FlattenSnoc(s.accepted, m); }
    assert Everything(s) <= Everything(t);
  }

  /** In every interleaving, once the backend thread runs, 54 of its turns bring everything accepted
      so far into the file. */
  lemma AcceptedReachesFile(s: Log, ops: seq<Op>)
    requires Inv(s) && Sized(ops) && (s.backend.Waiting? || s.backend.Writing?) && Turns(ops) >= 54
    ensures Flatten(s.accepted) <= Run(s, ops).file
  {
    SoonRuns(s, ops, Flatten(s.accepted), 54);
  }

  lemma SoonIsNow(s: Log, base: seq<Byte>)
    requires Soon(s, base, 0)
    ensures base <= s.file
  {
    if s.backend.Writing? && s.backend.todo == [] { assert s.file + [] == s.file; }
  }

  lemma {:induction false} SoonRuns(s: Log, ops: seq<Op>, base: seq<Byte>, k: nat)
    requires Inv(s) && Sized(ops) && Soon(s, base, k) && Turns(ops) >= k
    ensures base <= Run(s, ops).file
    decreases |ops|
  {
    if ops == [] {
      SoonIsNow(s, base);
    } else {
      StepKeeps(s, ops[0]);
      assert ops[0].Append? ==> |ops[0].message| <= BUFFER_SIZE;
      StepSoon(s, ops[0], base, k);
      SoonRuns(Step(s, ops[0]), ops[1..], base, if ops[0].Turn? && k > 0 then k - 1 else k);
    }
  }

  /** A backend thread that is started while the logger runs is there, ready to write, until the
      logger stops, and the logger runs exactly until it is told to stop. */
  lemma {:induction false} RunsUntilStopped(s: Log, ops: seq<Op>)
    ensures Run(s, ops).running <==> s.running && Stop !in ops
    ensures var t := Run(s, ops);
            t.running && (!s.backend.NotStarted? || Start in ops) && !s.backend.Exited? ==>
              t.backend.Waiting? || t.backend.Writing?
    decreases |ops|
  {
    if ops != [] {
      assert ops == [ops[0]] + ops[1..];
      if ops[0].Append? { AppendForward(s, ops[0].message); }
      RunsUntilStopped(Step(s, ops[0]), ops[1..]);
    }
  }

  // ---- shutdown ----

  function Backlog(s: Log): nat {
    |s.work| + if Used(s) != [] then 1 else 0
  }

  /** Turns the backend still needs after the stop. */
  function Remaining(s: Log): nat {
    var round := if Backlog(s) == 0 then 1 else Backlog(s) + 3;
    match s.backend
    case NotStarted => 0
    case Exited => 0
    case Waiting => round
    case Writing(todo, _) => |todo| + 1 + round
  }

  function Turns(ops: seq<Op>): nat {
    if ops == [] then 0 else (if ops[0].Turn? then 1 else 0) + Turns(ops[1..])
  }

  lemma StopStep(s: Log, op: Op)
    requires Inv(s) && !s.running && !op.Drain?
    ensures Remaining(Step(s, op)) == if op.Turn? && Remaining(s) > 0 then Remaining(s) - 1 else Remaining(s)
  {
    if op.Turn? && s.backend.Writing? && s.backend.todo == [] {
      assert Used(Step(s, op)) == Used(s);
    }
  }

  /** After the stop the backend leaves after a number of its own steps that is known in advance,
      whatever the appenders do meanwhile. */
  lemma {:induction false} BackendLeaves(s: Log, ops: seq<Op>)
    requires Inv(s) && !s.running && Sized(ops)
    requires forall i :: 0 <= i < |ops| ==> !ops[i].Drain?
    ensures Joinable(Run(s, ops)) <==> Turns(ops) >= Remaining(s)
    decreases |ops|
  {
    if ops == [] {
      assert Joinable(s) <==> Remaining(s) == 0;
    } else {
      StopStep(s, ops[0]);
      StepKeeps(s, ops[0]);
      BackendLeaves(Step(s, ops[0]), ops[1..]);
    }
  }

  /** Once the destructor is through, the file is exactly the accepted messages, in order, whether
      or not a backend thread ever ran. */
  lemma ShutdownComplete(ops: seq<Op>)
    requires Sized(ops)
    ensures var s := Run(Open(), ops);
            && (s.gone ==> s.file == Flatten(s.accepted))
            && (Joinable(s) ==> Step(s, Drain).gone && Step(s, Drain).file == Flatten(s.accepted))
  {
    OpenInv();
    RunKeeps(Open(), ops);
    var s := Run(Open(), ops);
    GoneWhole(s);
    if Joinable(s) {
      StepKeeps(s, Drain);
      GoneWhole(Step(s, Drain));
    }
  }

  lemma GoneWhole(s: Log)
    requires Inv(s)
    ensures s.gone ==> s.file == Flatten(s.accepted)
  {
    assert s.file + [] + [] + [] == s.file;
  }

  // ---- the logging object ----

  class AsyncLogging {
    var running: bool
    var current: Option<seq<Byte>>
    var next: bool
    var work: seq<seq<Byte>>
    var pool: nat
    var file: seq<Byte>
    var backend: Backend
    var gone: bool
    ghost var accepted: seq<seq<Byte>>

    ghost function View(): Log
      reads this
    {
      Log(running, current, next, work, pool, file, backend, gone, accepted)
    }

    constructor ()
      ensures View() == Open()
    {
      running, current, next, work, pool := true, Some([]), true, [], 0;
      file, backend, gone, accepted := [], NotStarted, false, [];
    }

    method TakeBufferLocked()
      modifies this`pool
      ensures View() == TakeBuffer(old(View()))
    {
      if pool != 0 {
        pool := pool - 1;
      }
    }

    method RecycleBufferLocked()
      modifies this`pool
      ensures pool == if old(pool) < POOL_LIMIT then old(pool) + 1 else old(pool)
    {
      if pool < POOL_LIMIT {
        pool := pool + 1;
      }
    }

    method ReplaceCurrent()
      modifies this`current, this`next, this`pool
      ensures View() == FreshCurrent(old(View()))
    {
      if next {
        next := false;
      } else {
        TakeBufferLocked();
      }
      current := Some([]);
    }

    method EnsureNext()
      modifies this`next, this`pool
      ensures View() == FillNext(old(View()))
    {
      if !next {
        TakeBufferLocked();
        next := true;
      }
    }

    method QueueCurrent()
      requires current.Some?
      modifies this`work, this`current, this`next, this`pool
      ensures View() == PushCurrent(old(View()))
    {
      work := work + [current.value];
      ReplaceCurrent();
    }

    /** `Append` with the lock held; the backend is notified afterwards when a buffer was full. */
    method Append(message: seq<Byte>) returns (wake: bool)
      modifies this
      ensures View() == AppendLocked(old(View()), message)
      ensures wake <==> old(running) && |Used(old(View()))| + |message| > BUFFER_SIZE
    {
      wake := false;
      if !running {
        return;
      }
      if current.None? {
        ReplaceCurrent();
      }
      var drop := false;
      if BUFFER_SIZE - |current.value| < |message| {
        wake := true;
        if |work| >= BUFFER_LIMIT {
          drop := true;
        } else {
          QueueCurrent();
        }
      }
      if !drop {
        current := Some(current.value + message);
        accepted := accepted + [message];
      }
      EnsureNext();
    }

    method StartBackendThread()
      requires running && backend.NotStarted?
      modifies this`backend
      ensures View() == Step(old(View()), Start)
    {
      backend := Waiting;
    }

    /** The backend loop's next region. */
    method BackendStep()
      modifies this
      ensures View() == BackendTurn(old(View()))
    {
      match backend {
        case NotStarted =>
        case Exited =>
        case Waiting => CollectLocked();
        case Writing(todo, spent) =>
          if todo == [] {
            RecycleLocked(spent);
          } else {
            file, backend := file + todo[0], Writing(todo[1..], spent + 1);
          }
      }
    }

    method CollectLocked()
      modifies this
      ensures View() == Collect(old(View()))
    {
      if current.Some? && current.value != [] {
        QueueCurrent();
      }
      if !running && work == [] {
        backend := Exited;
      } else {
        work, backend := [], Writing(work, 0);
      }
    }

    method RecycleLocked(spent: nat)
      modifies this`pool, this`next, this`backend
      ensures View() == Recycle(old(View()), spent)
    {
      var reusable := Min(POOL_LIMIT, spent);
      while reusable > 0
        invariant 0 <= reusable
        invariant Refilled(pool, reusable) == Refilled(old(pool), Min(POOL_LIMIT, spent))
        invariant View() == old(View()).(pool := pool)
      {
        RecycleBufferLocked();
        reusable := reusable - 1;
      }
      backend := Waiting;
      EnsureNext();
    }

    method StopRunning()
      modifies this`running
      ensures View() == Step(old(View()), Stop)
    {
      running := false;
    }

    /** The destructor after the join: write what is left. */
    method DrainRest()
      requires Joinable(View())
      modifies this
      ensures View() == Step(old(View()), Drain)
    {
      var rest, last := work, if current.Some? then current.value else [];
      work, current, next, pool := [], None, false, 0;
      var i := 0;
      while i < |rest|
        invariant i <= |rest|
        invariant file + Flatten(rest[i..]) == old(file) + Flatten(rest)
        invariant View() == old(View()).(work := [], current := None, next := false, pool := 0, file := file)
      {
        assert rest[i..][1..] == rest[i + 1..];
        Assoc(file, rest[i], Flatten(rest[i + 1..]));
        file := file + rest[i];
        i := i + 1;
      }
      assert file + Flatten(rest[i..]) == file;
      if |last| > 0 {
        file := file + last;
      } else {
        assert file + last == file;
      }
      gone := true;
    }
  }
}
