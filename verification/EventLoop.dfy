/** The cross-thread task queue of src/eventloop.cpp: push-then-wake by any number of submitters,
    poll, read the eventfd, swap and run by the loop thread, in every interleaving. */
module EventLoop {

  type Task = nat

  /** Where the loop thread is: about to poll, handling ready channels, or running a batch. */
  datatype Phase = AtPoll | Handling | Running

  const COUNTER_MAX: nat := 0xffff_ffff_ffff_fffe

  datatype Loop = Loop(
    phase: Phase,
    missions: seq<Task>,
    batch: seq<Task>,
    counter: nat,          // the eventfd
    waking: nat,           // submitters between their push and their wake
    lost: bool,            // a wake-up write has been interrupted since the last swap
    submitted: seq<Task>,  // off-thread submissions, in lock order
    executed: seq<Task>,
    waiters: set<nat>,     // submissions made by SubmitAndWait, by position
    marking: set<nat>,     // waited-for submissions whose task has run, flag not yet set
    done: set<nat>,
    returned: set<nat>)

  datatype Op =
    | Push(task: Task, wait: bool)   // under the lock
    | Wake(interrupted: bool)        // the write to the eventfd; EAGAIN leaves a full counter
    | Poll(interrupted: bool)
    | ReadWake(success: bool)        // the wake-up channel's handler
    | Swap                           // under the lock
    | Execute                        // the next task of the batch
    | Mark(i: nat)                   // the rest of a waited-for task: set the flag, notify
    | Repoll                         // the batch is empty
    | Return(i: nat)                 // SubmitAndWait sees its flag

  function Init(): Loop {
    Loop(AtPoll, [], [], 0, 0, false, [], [], {}, {}, {}, {})
  }

  function Step(s: Loop, op: Op): Loop {
    match op
    case Push(task, wait) =>
      s.(missions := s.missions + [task], submitted := s.submitted + [task], waking := s.waking + 1,
         waiters := if wait then s.waiters + {|s.submitted|} else s.waiters)
    case Wake(interrupted) =>
      if s.waking == 0 then s
      else if interrupted then s.(waking := s.waking - 1, lost := true)
      else s.(waking := s.waking - 1, counter := if s.counter < COUNTER_MAX then s.counter + 1 else s.counter)
    case Poll(interrupted) =>
      if s.phase != AtPoll || interrupted then s else s.(phase := Handling)
    case ReadWake(success) =>
      if s.phase == Handling && success then s.(counter := 0) else s
    case Swap =>
      if s.phase != Handling then s
      else s.(phase := Running, batch := s.missions, missions := s.batch, lost := false)
    case Execute =>
      if s.phase != Running || s.batch == [] then s
      else
        var i := |s.executed|;
        s.(batch := s.batch[1..], executed := s.executed + [s.batch[0]],
           marking := if i in s.waiters then s.marking + {i} else s.marking)
    case Mark(i) => if i in s.marking then s.(marking := s.marking - {i}, done := s.done + {i}) else s
    case Repoll => if s.phase == Running && s.batch == [] then s.(phase := AtPoll) else s
    case Return(i) => if i in s.done then s.(returned := s.returned + {i}) else s
  }

  function Run(s: Loop, ops: seq<Op>): Loop
    decreases |ops|
  {
    if ops == [] then s else Run(Step(s, ops[0]), ops[1..])
  }

  // ---- the invariant ----

  /** A queued task has been announced, or its submitter is about to. */
  ghost predicate Announced(s: Loop) {
    s.missions != [] ==> s.counter > 0 || s.waking > 0 || s.lost
  }

  /** A waited-for submission has its flag set, or about to be, exactly when its task has run. */
  ghost predicate Flagged(s: Loop) {
    && (forall i :: i in s.waiters ==> i < |s.submitted|)
    && (forall i :: i in s.marking + s.done <==> i in s.waiters && i < |s.executed|)
  }

  ghost predicate Inv(s: Loop) {
    && s.executed + s.batch + s.missions == s.submitted
    && (s.phase != Running ==> s.batch == [])
    && (s.phase != Handling ==> Announced(s))
    && Flagged(s)
    && s.returned <= s.done
  }

  lemma StepKeeps(s: Loop, op: Op)
    requires Inv(s)
    ensures Inv(Step(s, op))
    ensures s.submitted <= Step(s, op).submitted && s.executed <= Step(s, op).executed
  {
    match op
    case Push(task, _) =>
      assert s.executed + s.batch + (s.missions + [task]) == s.submitted + [task];
      assert |s.executed| <= |s.submitted|;
    case Swap =>
    case Execute =>
      if s.phase == Running && s.batch != [] {
        assert s.executed + [s.batch[0]] + s.batch[1..] == s.executed + s.batch;
      }
    case _ =>
  }

  lemma {:induction false} RunKeeps(s: Loop, ops: seq<Op>)
    requires Inv(s)
    ensures Inv(Run(s, ops)) && s.submitted <= Run(s, ops).submitted && s.executed <= Run(s, ops).executed
    decreases |ops|
  {
    if ops != [] {
      StepKeeps(s, ops[0]);
      RunKeeps(Step(s, ops[0]), ops[1..]);
    }
  }

  /** Tasks run in submission order, each at most once and none lost: what has run, the rest of
      the batch and the queue are the submissions. */
  lemma TasksConserved(ops: seq<Op>)
    ensures var s := Run(Init(), ops);
            s.executed + s.batch + s.missions == s.submitted && s.executed <= s.submitted
  {
    RunKeeps(Init(), ops);
    var s := Run(Init(), ops);
    assert s.executed + s.batch + s.missions == s.executed + (s.batch + s.missions);
  }

  /** `SubmitAndWait` returns only after its own task has run, and once that has run the flag it
      waits for is set or about to be. */
  lemma WaitSeesTask(ops: seq<Op>, i: nat)
    ensures var s := Run(Init(), ops);
            && (i in s.returned ==> i < |s.executed| <= |s.submitted| && s.executed[i] == s.submitted[i])
            && (i in s.waiters && i < |s.executed| ==> i in s.done || i in s.marking)
  {
    RunKeeps(Init(), ops);
    var s := Run(Init(), ops);
    assert s.executed + s.batch + s.missions == s.executed + (s.batch + s.missions);
    if i in s.returned { assert i in s.marking + s.done; }
    if i in s.waiters && i < |s.executed| { assert i in s.marking + s.done; }
  }

  // ---- what was asked for is what is on record ----

  /** The submissions of a run, in lock order. */
  function Pushes(ops: seq<Op>): (r: seq<Op>)
    ensures forall i :: 0 <= i < |r| ==> r[i].Push?
    decreases |ops|
  {
    if ops == [] then []
    else
      var last := ops[|ops| - 1];
      Pushes(ops[..|ops| - 1]) + if last.Push? then [last] else []
  }

  /** How many submitters have made their wake-up write, interrupted or not. */
  function Woken(ops: seq<Op>): (k: nat)
    ensures k <= |Pushes(ops)|
    decreases |ops|
  {
    if ops == [] then 0
    else
      var before, last := ops[..|ops| - 1], ops[|ops| - 1];
      Woken(before) + if last.Wake? && Woken(before) < |Pushes(before)| then 1 else 0
  }

  lemma RunSnoc(ops: seq<Op>)
    requires ops != []
    ensures Run(Init(), ops) == Step(Run(Init(), ops[..|ops| - 1]), ops[|ops| - 1])
  {
    var before, last := ops[..|ops| - 1], ops[|ops| - 1];
    assert ops == before + [last];
    RunAppend(Init(), before, [last]);
    RunOne(Run(Init(), before), last);
  }

  /** Every submission is recorded with its task and as waiting or not, and is to be followed by one
      wake-up write. */
  lemma {:induction false} RecordExactly(ops: seq<Op>)
    ensures var s, ps := Run(Init(), ops), Pushes(ops);
            && |s.submitted| == |ps| && (forall i :: 0 <= i < |ps| ==> s.submitted[i] == ps[i].task)
            && (forall i: nat :: i in s.waiters <==> i < |ps| && ps[i].wait)
            && s.waking == |ps| - Woken(ops)
    decreases |ops|
  {
    if ops != [] {
      RecordExactly(ops[..|ops| - 1]);
      RunSnoc(ops);
    }
  }

  /** The flag of the `i`-th submission is set at `k`, its task having run. */
  ghost predicate Sets(ops: seq<Op>, i: nat, k: int) {
    0 <= k < |ops| && ops[k] == Mark(i) && i < |Run(Init(), ops[..k]).executed|
  }

  ghost predicate SeenAt(ops: seq<Op>, i: nat, k: int) {
    0 <= k < |ops| && ops[k] == Return(i) && i in Run(Init(), ops[..k]).done
  }

  /** A submission's flag is set exactly when it waits and its task, having run, has got to its end. */
  lemma {:induction false} FlagExactly(ops: seq<Op>, i: nat)
    ensures i in Run(Init(), ops).done <==> i < |Pushes(ops)| && Pushes(ops)[i].wait && exists k :: Sets(ops, i, k)
    decreases |ops|
  {
    if ops != [] {
      var before, last := ops[..|ops| - 1], ops[|ops| - 1];
      FlagExactly(before, i);
      RunSnoc(ops);
      SetsSnoc(ops, i);
      Recorded(before, i);
      RecordExactly(ops);
      assert |Pushes(before)| <= |Pushes(ops)|;
      assert i < |Pushes(before)| ==> Pushes(ops)[i] == Pushes(before)[i];
    }
  }

  lemma SetsSnoc(ops: seq<Op>, i: nat)
    requires ops != []
    ensures var before, last := ops[..|ops| - 1], ops[|ops| - 1];
            (exists k :: Sets(ops, i, k)) <==>
              (exists k :: Sets(before, i, k)) || (last == Mark(i) && i < |Run(Init(), before).executed|)
  {
    var before, last, n := ops[..|ops| - 1], ops[|ops| - 1], |ops| - 1;
    forall k | 0 <= k < n ensures Sets(ops, i, k) == Sets(before, i, k) {
      assert ops[..k] == before[..k];
    }
    if k :| Sets(ops, i, k) {
      if k < n { assert Sets(before, i, k); }
    }
    if k :| Sets(before, i, k) { assert Sets(ops, i, k); }
    assert Sets(ops, i, n) <==> last == Mark(i) && i < |Run(Init(), before).executed|;
  }

  /** A flag about to be set is that of a waited-for submission whose task has run; and what has run
      was submitted. */
  lemma Recorded(ops: seq<Op>, i: nat)
    ensures var s, ps := Run(Init(), ops), Pushes(ops);
            && (i in s.marking || i in s.done <==> i < |s.executed| && i < |ps| && ps[i].wait)
            && |s.executed| <= |ps|
            && ((exists k :: Sets(ops, i, k)) ==> i < |s.executed|)
  {
    RecordExactly(ops);
    RunKeeps(Init(), ops);
    RanIsPushed(ops);
    assert i in Run(Init(), ops).marking + Run(Init(), ops).done
      <==> i in Run(Init(), ops).waiters && i < |Run(Init(), ops).executed|;
    if k :| Sets(ops, i, k) { SetsEarlier(ops, i, k); }
  }

  lemma RanIsPushed(ops: seq<Op>)
    ensures |Run(Init(), ops).executed| <= |Pushes(ops)|
  {
    RunKeeps(Init(), ops);
    RecordExactly(ops);
    TasksConserved(ops);
  }

  lemma SetsEarlier(ops: seq<Op>, i: nat, k: int)
    requires Sets(ops, i, k)
    ensures i < |Run(Init(), ops).executed|
  {
    assert ops == ops[..k] + ops[k..];
    RunAppend(Init(), ops[..k], ops[k..]);
    RunKeeps(Init(), ops[..k]);
    RunKeeps(Run(Init(), ops[..k]), ops[k..]);
  }

  /** A waiting submitter returns exactly by looking once its flag is set. */
  lemma {:induction false} ReturnExactly(ops: seq<Op>, i: nat)
    ensures i in Run(Init(), ops).returned <==> exists k :: SeenAt(ops, i, k)
    decreases |ops|
  {
    if ops != [] {
      var before, last := ops[..|ops| - 1], ops[|ops| - 1];
      var n := |ops| - 1;
      ReturnExactly(before, i);
      RunSnoc(ops);
      forall k | 0 <= k < n ensures SeenAt(ops, i, k) == SeenAt(before, i, k) {
        assert ops[..k] == before[..k];
      }
      if k :| SeenAt(before, i, k) { assert SeenAt(ops, i, k); }
      if k :| SeenAt(ops, i, k) {
        if k < n { assert SeenAt(before, i, k); }
      }
      assert SeenAt(ops, i, n) <==> last == Return(i) && i in Run(Init(), before).done;
    }
  }

  // ---- wake-ups ----

  /** The `i`-th operation is a wake-up write that gets through. */
  ghost predicate Rings(ops: seq<Op>, i: int) {
    0 <= i < |ops| && ops[i] == Wake(false) && Run(Init(), ops[..i]).waking > 0
  }

  /** The `i`-th operation empties the eventfd. */
  ghost predicate Clears(ops: seq<Op>, i: int) {
    0 <= i < |ops| && ops[i] == ReadWake(true) && Run(Init(), ops[..i]).phase == Handling
  }

  /** Some wake-up write got through and the loop has not read the eventfd since. */
  ghost predicate Heard(ops: seq<Op>) {
    exists i :: Rings(ops, i) && forall j :: i < j < |ops| ==> !Clears(ops, j)
  }

  lemma SnocSame(ops: seq<Op>, op: Op, i: nat)
    requires i < |ops|
    ensures Rings(ops + [op], i) == Rings(ops, i) && Clears(ops + [op], i) == Clears(ops, i)
  {
    assert (ops + [op])[..i] == ops[..i];
  }

  lemma HeardSnoc(ops: seq<Op>, op: Op)
    ensures var s := Run(Init(), ops);
            Heard(ops + [op]) <==>
              || (op == Wake(false) && s.waking > 0)
              || (Heard(ops) && !(op == ReadWake(true) && s.phase == Handling))
  {
    var all, n := ops + [op], |ops|;
    assert all[..n] == ops;
    if Rings(all, n) {
      assert forall j :: n < j < |all| ==> !Clears(all, j);
    }
    if Heard(ops) && !Clears(all, n) {
      var i :| Rings(ops, i) && forall j :: i < j < |ops| ==> !Clears(ops, j);
      SnocSame(ops, op, i);
      forall j | i < j < |all| ensures !Clears(all, j) {
        if j < n { SnocSame(ops, op, j); }
      }
    }
    if Heard(all) && !Rings(all, n) {
      var i :| Rings(all, i) && forall j :: i < j < |all| ==> !Clears(all, j);
      SnocSame(ops, op, i);
      forall j | i < j < n ensures !Clears(ops, j) { SnocSame(ops, op, j); }
      assert !Clears(all, n);
    }
  }

  /** The eventfd is readable exactly when a wake-up write has been heard. */
  lemma {:induction false} ReadableExactly(ops: seq<Op>)
    ensures Run(Init(), ops).counter > 0 <==> Heard(ops)
    decreases |ops|
  {
    if ops != [] {
      var before, last := ops[..|ops| - 1], ops[|ops| - 1];
      assert ops == before + [last];
      ReadableExactly(before);
      RunAppend(Init(), before, [last]);
      RunOne(Run(Init(), before), last);
      HeardSnoc(before, last);
    }
  }

  /** Wake-up writes that got through since the loop last read the eventfd. */
  ghost function Ringing(ops: seq<Op>): nat
    decreases |ops|
  {
    if ops == [] then 0
    else
      var n := |ops| - 1;
      if Clears(ops, n) then 0 else Ringing(ops[..n]) + if Rings(ops, n) then 1 else 0
  }

  /** The eventfd counts them, up to the largest value it can hold. */
  lemma {:induction false} CounterExactly(ops: seq<Op>)
    ensures var c, k := Run(Init(), ops).counter, Ringing(ops);
            c == if k <= 0xffff_ffff_ffff_fffe then k else 0xffff_ffff_ffff_fffe
    decreases |ops|
  {
    if ops != [] {
      CounterExactly(ops[..|ops| - 1]);
      RunSnoc(ops);
    }
  }

  /** A wake-up write has been interrupted since the loop last swapped its queue. */
  ghost predicate CutSince(ops: seq<Op>)
    decreases |ops|
  {
    ops != [] &&
    var n := |ops| - 1;
    var s := Run(Init(), ops[..n]);
    !(ops[n] == Swap && s.phase == Handling) && ((ops[n] == Wake(true) && s.waking > 0) || CutSince(ops[..n]))
  }

  lemma {:induction false} LostExactly(ops: seq<Op>)
    ensures Run(Init(), ops).lost <==> CutSince(ops)
    decreases |ops|
  {
    if ops != [] {
      LostExactly(ops[..|ops| - 1]);
      RunSnoc(ops);
    }
  }

  /** In any run at all: a loop about to poll with tasks queued will be woken exactly when a
      submitter is between its push and its wake, or some wake-up write since the loop last read
      the eventfd was not interrupted. When neither holds, an interruption is to blame. */
  lemma AnnouncedExactly(ops: seq<Op>)
    ensures var s := Run(Init(), ops);
            s.phase == AtPoll && s.missions != [] ==>
              && (s.counter > 0 || s.waking > 0 <==> s.waking > 0 || Heard(ops))
              && (s.waking == 0 && !Heard(ops) ==> CutSince(ops))
  {
    ReadableExactly(ops);
    LostExactly(ops);
    RunKeeps(Init(), ops);
  }

  ghost predicate Uninterrupted(ops: seq<Op>) {
    forall i :: 0 <= i < |ops| ==> ops[i] != Wake(true)
  }

  lemma {:induction false} NothingLost(s: Loop, ops: seq<Op>)
    requires !s.lost && Uninterrupted(ops)
    ensures !Run(s, ops).lost
    decreases |ops|
  {
    if ops != [] {
      assert ops[0] != Wake(true);
      NothingLost(Step(s, ops[0]), ops[1..]);
    }
  }

  /** So without interruptions no wake-up is ever lost. */
  lemma NoLostWakeup(ops: seq<Op>)
    requires Uninterrupted(ops)
    ensures var s := Run(Init(), ops);
            s.phase == AtPoll && s.missions != [] ==> s.waking > 0 || (s.counter > 0 && Heard(ops))
  {
    AnnouncedExactly(ops);
    ReadableExactly(ops);
    LostExactly(ops);
    NothingLost(Init(), ops);
  }

  /** A sleeping loop with unannounced tasks has had a wake-up write interrupted since its last swap. */
  lemma LostOnlyByInterrupt(ops: seq<Op>)
    ensures var s := Run(Init(), ops);
            s.phase == AtPoll && s.missions != [] && s.counter == 0 && s.waking == 0 ==>
              CutSince(ops) && !Heard(ops)
  {
    AnnouncedExactly(ops);
  }

  /** And then it does happen: an interrupted write is not retried. */
  lemma InterruptLosesWakeup(task: Task)
    ensures var s := Run(Init(), [Push(task, false), Wake(true)]);
            s.phase == AtPoll && s.missions == [task] && s.counter == 0 && s.waking == 0
  {
    var ops := [Push(task, false), Wake(true)];
    assert ops[1..] == [Wake(true)];
    assert Run(Step(Init(), ops[0]), [Wake(true)]) == Run(Step(Step(Init(), ops[0]), Wake(true)), [Wake(true)][1..]);
  }

  // ---- a turn of the loop ----

  /** Somewhere in the run a poll returns. */
  ghost predicate Polls(s: Loop, ops: seq<Op>)
    decreases |ops|
  {
    ops != [] && ((s.phase == AtPoll && ops[0] == Poll(false)) || Polls(Step(s, ops[0]), ops[1..]))
  }

  /** Until a poll returns, an interrupted one not counting, the loop reads nothing and runs nothing. */
  lemma {:induction false} NothingRunsUnpolled(s: Loop, ops: seq<Op>)
    requires Inv(s) && s.phase == AtPoll && !Polls(s, ops)
    ensures var t := Run(s, ops);
            && t.phase == AtPoll && t.executed == s.executed && t.counter >= s.counter
            && s.missions <= t.missions
    decreases |ops|
  {
    if ops != [] {
      StepKeeps(s, ops[0]);
      NothingRunsUnpolled(Step(s, ops[0]), ops[1..]);
    }
  }

  /** From a poll on, the tasks submitted before it are queued, then in the batch, then run. */
  ghost predicate OnTrack(s: Loop, base: seq<Task>) {
    match s.phase
    case Handling => base <= s.submitted
    case Running => base <= s.executed + s.batch
    case AtPoll => base <= s.executed
  }

  lemma StepOnTrack(s: Loop, op: Op, base: seq<Task>)
    requires Inv(s) && OnTrack(s, base)
    ensures OnTrack(Step(s, op), base)
  {
    StepKeeps(s, op);
    match op
    case Poll(_) => assert s.executed + s.batch + s.missions == s.executed + (s.batch + s.missions);
    case Swap => if s.phase == Handling { assert s.executed + [] + s.missions == s.executed + s.missions; }
    case Execute =>
      if s.phase == Running && s.batch != [] {
        assert s.executed + [s.batch[0]] + s.batch[1..] == s.executed + s.batch;
      }
    case _ =>
  }

  lemma {:induction false} RunOnTrack(s: Loop, ops: seq<Op>, base: seq<Task>)
    requires Inv(s) && OnTrack(s, base)
    ensures OnTrack(Run(s, ops), base)
    decreases |ops|
  {
    if ops != [] {
      StepKeeps(s, ops[0]);
      StepOnTrack(s, ops[0], base);
      RunOnTrack(Step(s, ops[0]), ops[1..], base);
    }
  }

  /** Once a poll returns for any reason, a timeout included, everything submitted before it has
      run by the time the loop is back at a poll, whatever submitters do meanwhile: a lost wake-up
      delays tasks by one poll timeout and loses none. */
  lemma {:induction false} RoundRunsQueued(s: Loop, ops: seq<Op>)
    requires Inv(s) && Polls(s, ops)
    ensures Run(s, ops).phase == AtPoll ==> s.submitted <= Run(s, ops).executed
    decreases |ops|
  {
    var t := Step(s, ops[0]);
    StepKeeps(s, ops[0]);
    if s.phase == AtPoll && ops[0] == Poll(false) {
      RunOnTrack(t, ops[1..], s.submitted);
    } else {
      RoundRunsQueued(t, ops[1..]);
    }
  }

  function Executes(n: nat): seq<Op> {
    seq(n, _ => Execute)
  }

  lemma {:induction false} ExecutesAll(s: Loop)
    requires s.phase == Running
    ensures var t := Run(s, Executes(|s.batch|));
            t.batch == [] && t.phase == Running && t.missions == s.missions && t.executed == s.executed + s.batch
    decreases |s.batch|
  {
    if s.batch == [] {
      assert s.executed + [] == s.executed;
    } else {
      assert Executes(|s.batch|)[1..] == Executes(|s.batch| - 1);
      var t := Step(s, Execute);
      ExecutesAll(t);
      assert t.executed + t.batch == s.executed + s.batch;
    }
  }

  lemma {:induction false} RunAppend(s: Loop, a: seq<Op>, b: seq<Op>)
    ensures Run(s, a + b) == Run(Run(s, a), b)
    decreases |a|
  {
    if a == [] {
      assert a + b == b;
    } else {
      assert (a + b)[1..] == a[1..] + b;
      RunAppend(Step(s, a[0]), a[1..], b);
    }
  }

  lemma RunThree(s: Loop, a: Op, b: Op, c: Op)
    ensures Run(s, [a, b, c]) == Step(Step(Step(s, a), b), c)
  {
    assert [a, b, c][1..] == [b, c] && [b, c][1..] == [c] && [c][1..] == [];
    assert Run(Step(s, a), [b, c]) == Run(Step(Step(s, a), b), [c]);
    assert Run(Step(Step(s, a), b), [c]) == Run(Step(Step(Step(s, a), b), c), []);
  }

  function Opening(read: bool): seq<Op> {
    [Poll(false), ReadWake(read), Swap]
  }

  lemma OpeningTakesAll(s: Loop, read: bool)
    requires Inv(s) && s.phase == AtPoll
    ensures var t := Run(s, Opening(read));
            t.phase == Running && t.batch == s.missions && t.missions == [] && t.executed == s.executed
  {
    RunThree(s, Poll(false), ReadWake(read), Swap);
  }

  /** And the loop does get back there by its own steps, one for each queued task and four more. */
  lemma RoundCompletes(s: Loop, read: bool)
    requires Inv(s) && s.phase == AtPoll
    ensures var t := Run(s, Opening(read) + Executes(|s.missions|) + [Repoll]);
            t.phase == AtPoll && t.missions == [] && t.executed == s.submitted
  {
    var a, b := Opening(read), Executes(|s.missions|);
    OpeningTakesAll(s, read);
    ExecutesAll(Run(s, a));
    RunAppend(s, a, b);
    RunAppend(s, a + b, [Repoll]);
    RunOne(Run(s, a + b), Repoll);
    NothingInBatch(s);
  }

  lemma NothingInBatch(s: Loop)
    requires Inv(s) && s.phase == AtPoll
    ensures s.executed + s.missions == s.submitted
  {
    assert s.executed + [] + s.missions == s.executed + s.missions;
  }

  lemma RunOne(s: Loop, a: Op)
    ensures Run(s, [a]) == Step(s, a)
  {
    assert [a][1..] == [];
    assert Run(Step(s, a), []) == Step(s, a);
  }

  /** Only steps of threads other than the loop's. */
  ghost predicate Foreign(ops: seq<Op>) {
    forall i :: 0 <= i < |ops| ==> ops[i].Push? || ops[i].Wake? || ops[i].Return?
  }

  /** Steps of the loop thread with those of other threads before each. */
  lemma Alternate(s: Loop, before: seq<Op>, a: Op, between: seq<Op>, b: Op)
    ensures Run(s, before + [a] + between + [b]) == Step(Run(Step(Run(s, before), a), between), b)
  {
    RunAppend(s, before, [a]);
    RunOne(Run(s, before), a);
    RunAppend(s, before + [a], between);
    RunAppend(s, before + [a] + between, [b]);
    RunOne(Run(s, before + [a] + between), b);
  }

  lemma CloseTurn(s: Loop, head: seq<Op>, rest: seq<Op>)
    ensures Run(s, head + rest + [Repoll]) == Step(Run(Run(s, head), rest), Repoll)
  {
    RunAppend(s, head, rest);
    RunAppend(s, head + rest, [Repoll]);
    RunOne(Run(s, head + rest), Repoll);
  }

  lemma NextRun(executed: seq<Task>, batch: seq<Task>)
    requires batch != []
    ensures executed + [batch[0]] + batch[1..] == executed + batch
  {}

  // ---- the loop object: each method is one atomic region ----

  class EventLoop {
    var phase: Phase
    var missions: seq<Task>
    var batch: seq<Task>
    var counter: nat
    var waking: nat        // a matter of the submitting threads
    ghost var lost: bool
    ghost var submitted: seq<Task>
    var executed: seq<Task>
    var waiters: set<nat>
    var marking: set<nat>
    var done: set<nat>
    var returned: set<nat>

    ghost function View(): Loop
      reads this
    {
      Loop(phase, missions, batch, counter, waking, lost, submitted, executed, waiters, marking, done, returned)
    }

    constructor ()
      ensures View() == Init() && Inv(View())
    {
      phase, missions, batch, counter, waking, lost, submitted := AtPoll, [], [], 0, 0, false, [];
      executed, waiters, marking, done, returned := [], {}, {}, {}, {};
    }

    /** The locked half of `Submit` from another thread. */
    method PushMission(task: Task, wait: bool)
      requires Inv(View())
      modifies this`missions, this`submitted, this`waking, this`waiters
      ensures View() == Step(old(View()), Push(task, wait)) && Inv(View())
    {
      StepKeeps(View(), Push(task, wait));
      if wait {
        waiters := waiters + {|executed| + |batch| + |missions|};
      }
      missions := missions + [task];
      submitted, waking := submitted + [task], waking + 1;
    }

    method WakeUp(interrupted: bool)
      requires Inv(View()) && waking > 0
      modifies this`counter, this`waking, this`lost
      ensures View() == Step(old(View()), Wake(interrupted)) && Inv(View())
    {
      StepKeeps(View(), Wake(interrupted));
      if interrupted {
        lost := true;
      } else if counter < COUNTER_MAX {
        counter := counter + 1;
      }
      waking := waking - 1;
    }

    method SwapMissions()
      requires Inv(View()) && phase == Handling
      modifies this`missions, this`batch, this`phase, this`lost
      ensures View() == Step(old(View()), Swap) && Inv(View())
    {
      StepKeeps(View(), Swap);
      missions, batch := batch, missions;
      phase, lost := Running, false;
    }

    method OtherStep(op: Op)
      requires Inv(View()) && (op.Push? || op.Wake? || op.Return?)
      modifies this`missions, this`submitted, this`waking, this`waiters, this`counter, this`lost, this`returned
      ensures Inv(View()) && View() == Step(old(View()), op)
      ensures old(missions) <= missions && old(submitted) <= submitted
    {
      match op {
        case Push(task, wait) => PushMission(task, wait);
        case Wake(interrupted) => if waking > 0 { WakeUp(interrupted); }
        case Return(i) =>
          StepKeeps(View(), op);
          if i in done {
            returned := returned + {i};
          }
      }
    }

    /** What other threads do while the loop thread is between two steps of its own. */
    method Others(ops: seq<Op>)
      requires Inv(View()) && Foreign(ops)
      modifies this`missions, this`submitted, this`waking, this`waiters, this`counter, this`lost, this`returned
      ensures Inv(View()) && View() == Run(old(View()), ops)
      ensures old(missions) <= missions && old(submitted) <= submitted
    {
      var k := 0;
      while k < |ops|
        invariant k <= |ops| && Inv(View())
        invariant Run(View(), ops[k..]) == Run(old(View()), ops)
        invariant old(missions) <= missions && old(submitted) <= submitted
      {
        assert ops[k..][1..] == ops[k + 1..];
        OtherStep(ops[k]);
        k := k + 1;
      }
    }

    method ExecuteNext()
      requires Inv(View()) && phase == Running && batch != []
      modifies this`batch, this`executed, this`marking
      ensures View() == Step(old(View()), Execute) && Inv(View())
    {
      StepKeeps(View(), Execute);
      if |executed| in waiters {
        marking := marking + {|executed|};
      }
      executed, batch := executed + [batch[0]], batch[1..];
    }

    method SetFlag(i: nat)
      requires Inv(View())
      modifies this`marking, this`done
      ensures View() == Step(old(View()), Mark(i)) && Inv(View())
    {
      StepKeeps(View(), Mark(i));
      if i in marking {
        marking, done := marking - {i}, done + {i};
      }
    }

    /** One mission of the batch. A waited-for one ends by setting its flag, and other threads may
        get in before and between. */
    method RunMission(before: seq<Op>, between: seq<Op>) returns (ghost trace: seq<Op>)
      requires Inv(View()) && phase == Running && batch != [] && marking == {}
      requires Foreign(before) && Foreign(between)
      modifies this
      ensures Inv(View()) && phase == Running && marking == {} && View() == Run(old(View()), trace)
      ensures batch == old(batch)[1..] && executed == old(executed) + [old(batch)[0]]
      ensures old(missions) <= missions && old(submitted) <= submitted
    {
      var i := |executed|;
      Others(before);
      ExecuteNext();
      FinishMission(i, between);
      trace := before + [Execute] + between + [Mark(i)];
      Alternate(old(View()), before, Execute, between, Mark(i));
    }

    /** What is left of a mission once its task has run. */
    method FinishMission(i: nat, between: seq<Op>)
      requires Inv(View()) && marking <= {i} && Foreign(between)
      modifies this`missions, this`submitted, this`waking, this`waiters, this`counter, this`lost, this`returned,
               this`marking, this`done
      ensures Inv(View()) && marking == {} && View() == Step(Run(old(View()), between), Mark(i))
      ensures old(missions) <= missions && old(submitted) <= submitted
    {
      Others(between);
      SetFlag(i);
    }

    /** The rest of `DoCrossThreadMission`: runs the batch to its end, one mission after another,
        while other threads act before and inside each. */
    method RunBatch(meanwhile: nat -> seq<Op>) returns (ghost trace: seq<Op>)
      requires Inv(View()) && phase == Running && marking == {} && forall k :: Foreign(meanwhile(k))
      modifies this
      ensures Inv(View()) && phase == Running && marking == {} && View() == Run(old(View()), trace)
      ensures batch == [] && executed == old(executed) + old(batch)
      ensures old(missions) <= missions && old(submitted) <= submitted
    {
      trace := [];
      var k := 0;
      while batch != []
        invariant Inv(View()) && phase == Running && marking == {}
        invariant View() == Run(old(View()), trace)
        invariant executed + batch == old(executed) + old(batch)
        invariant old(missions) <= missions && old(submitted) <= submitted
        decreases |batch|
      {
        ghost var s := View();
        var part := RunMission(meanwhile(k), meanwhile(k + 1));
        NextRun(s.executed, s.batch);
        RunAppend(old(View()), trace, part);
        trace, k := trace + part, k + 2;
      }
      assert executed + [] == executed;
    }

    /** A poll that returned: the wake-up channel's handler, and the locked swap. */
    method OpenTurn(read: bool, meanwhile: seq<Op>) returns (ghost trace: seq<Op>)
      requires Inv(View()) && phase == AtPoll && Foreign(meanwhile)
      modifies this
      ensures Inv(View()) && phase == Running && marking == old(marking)
      ensures View() == Run(old(View()), trace) && trace != [] && trace[0] == Poll(false)
    {
      trace := [Poll(false)] + [ReadWake(read)] + meanwhile + [Swap];
      RunOne(View(), Poll(false));
      Alternate(View(), [Poll(false)], ReadWake(read), meanwhile, Swap);
      StepKeeps(View(), Poll(false));
      StepKeeps(Step(View(), Poll(false)), ReadWake(read));
      phase := Handling;
      if read {
        counter := 0;
      }
      Others(meanwhile);
      SwapMissions();
    }

    /** One turn of `Loop`: an interrupted poll changes nothing; after any other, everything
        submitted before the poll has run in order, with its flag set where someone waits for it,
        and what was submitted meanwhile has run too or is queued. */
    method Iterate(interrupted: bool, read: bool, meanwhile: nat -> seq<Op>) returns (ghost trace: seq<Op>)
      requires Inv(View()) && phase == AtPoll && marking == {} && forall k :: Foreign(meanwhile(k))
      modifies this
      ensures Inv(View()) && phase == AtPoll && marking == {} && View() == Run(old(View()), trace)
      ensures interrupted ==> View() == old(View())
      ensures !interrupted ==> Polls(old(View()), trace) && old(submitted) <= executed
      ensures executed + missions == submitted
      ensures forall i :: i in waiters && i < |executed| ==> i in done
    {
      trace := [];
      if !interrupted {
        var head := OpenTurn(read, meanwhile(0));
        var rest := RunBatch((k: nat) => meanwhile(k + 1));
        trace := head + rest + [Repoll];
        CloseTurn(old(View()), head, rest);
        StepKeeps(View(), Repoll);
        phase := AtPoll;
        RoundRunsQueued(old(View()), trace);
      }
      NothingInBatch(View());
      forall i | i in waiters && i < |executed| ensures i in done { assert i in marking + done; }
    }
  }
}
