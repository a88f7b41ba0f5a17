/** The heartbeat wheel of src/timer: an object lives while some slot holds it, and its end
    closes its connection. It is shown to be a table of deadlines. */
module TimerWheel {

  type Id = nat

  /** Slots of object references, the hand, each object's `last_insert_pos_`, the next object to
      be created, and the connections closed by dying objects, in order. */
  datatype Wheel = Wheel(slots: seq<seq<Id>>, ptr: nat, last: map<Id, int>, next: Id, closed: seq<Id>) {
    predicate Shaped() {
      0 < |slots| && ptr < |slots|
    }
  }

  /** `Attach` is a connection's first insertion, `Refresh` one on arriving data. */
  datatype Op = Attach | Refresh(id: Id) | Tick

  const WORD: nat := 0x1_0000_0000_0000_0000

  predicate Held(slots: seq<seq<Id>>, id: Id) {
    exists j :: 0 <= j < |slots| && id in slots[j]
  }

  /** `(ptr_ - 1 + size) % size` in 64-bit unsigned arithmetic, where `ptr_ - 1` may be -1. */
  function InsertPos(ptr: nat, n: nat): nat
    requires 0 < n
  {
    (((ptr - 1) % WORD + n) % WORD) % n
  }

  lemma InsertPosBehind(ptr: nat, n: nat)
    requires ptr < n < WORD / 2
    ensures InsertPos(ptr, n) == if ptr == 0 then n - 1 else ptr - 1
  {
    if ptr == 0 {
      assert (ptr - 1) % WORD == WORD - 1;
      assert (WORD - 1 + n) % WORD == n - 1;
    } else {
      assert (ptr - 1) % WORD == ptr - 1;
      assert (ptr - 1 + n) % WORD == ptr - 1 + n;
      assert (ptr - 1 + n) % n == ptr - 1;
    }
  }

  function Insert(w: Wheel, id: Id): (r: Wheel)
    requires w.Shaped() && id in w.last
    ensures r.Shaped()
  {
    var pos := InsertPos(w.ptr, |w.slots|);
    if w.last[id] == pos then w
    else w.(last := w.last[id := pos], slots := w.slots[pos := w.slots[pos] + [id]])
  }

  /** The objects of a cleared slot that no other slot holds, in slot order. */
  function Dying(slots: seq<seq<Id>>, cleared: seq<Id>): (d: seq<Id>) {
    if cleared == [] then []
    else (if Held(slots, cleared[0]) then [] else [cleared[0]]) + Dying(slots, cleared[1..])
  }

  function TickOnce(w: Wheel): (r: Wheel)
    requires w.Shaped()
    ensures r.Shaped()
  {
    var slots := w.slots[w.ptr := []];
    w.(slots := slots, ptr := (w.ptr + 1) % |w.slots|, closed := w.closed + Dying(slots, w.slots[w.ptr]))
  }

  function Step(w: Wheel, op: Op): (r: Wheel)
    requires w.Shaped()
    ensures r.Shaped()
  {
    match op
    case Attach => Insert(w.(last := w.last[w.next := -1], next := w.next + 1), w.next)
    case Refresh(id) => if Held(w.slots, id) && id in w.last then Insert(w, id) else w
    case Tick => TickOnce(w)
  }

  function Start(n: nat): Wheel
  {
    Wheel(seq(n, _ => []), 0, map[], 0, [])
  }

  // ---- the simple form: when each object is due ----

  datatype Table = Table(now: nat, due: map<Id, nat>, next: Id, closed: set<Id>)

  function TableStep(t: Table, n: nat, op: Op): Table {
    match op
    case Attach => t.(due := t.due[t.next := t.now + n], next := t.next + 1)
    case Refresh(id) => if id in t.due then t.(due := t.due[id := t.now + n]) else t
    case Tick =>
      var late := set id | id in t.due && t.due[id] == t.now + 1;
      Table(t.now + 1, t.due - late, t.next, t.closed + late)
  }

  // ---- the refinement ----

  /** Ticks until slot `j` is cleared. */
  function Left(w: Wheel, j: nat): (d: nat)
    requires w.Shaped() && j < |w.slots|
    ensures 1 <= d <= |w.slots|
  {
    if j >= w.ptr then j - w.ptr + 1 else j - w.ptr + |w.slots| + 1
  }

  ghost predicate Distinct(s: seq<Id>) {
    forall i, j :: 0 <= i < j < |s| ==> s[i] != s[j]
  }

  /** An object's last position holds it, and no slot cleared later does. */
  ghost predicate Placed(w: Wheel, id: Id, left: nat)
    requires w.Shaped()
  {
    && id in w.last && 0 <= w.last[id] < |w.slots|
    && id in w.slots[w.last[id]] && Left(w, w.last[id]) == left
    && forall k :: 0 <= k < |w.slots| && id in w.slots[k] ==> Left(w, k) <= left
  }

  /** The wheel and the table say the same about one object. */
  ghost predicate Agree(w: Wheel, t: Table, id: Id)
    requires w.Shaped()
  {
    && (id in t.due <==> Held(w.slots, id))
    && (id in t.due ==> id < t.next && t.now < t.due[id] && Placed(w, id, t.due[id] - t.now))
    && (id in t.closed <==> id in w.closed)
    && (id in t.closed ==> id < t.next && id !in t.due)
  }

  /** No object is in a slot twice, and none is closed twice. */
  ghost predicate Tidy(w: Wheel) {
    && (forall j :: 0 <= j < |w.slots| ==> Distinct(w.slots[j]))
    && Distinct(w.closed)
  }

  ghost predicate Refines(w: Wheel, t: Table) {
    && w.Shaped() && |w.slots| < WORD / 2 && w.next == t.next
    && Tidy(w)
    && forall id :: Agree(w, t, id)
  }

  /** The slot behind the hand is the one cleared last, so an object found there was put there last. */
  lemma BehindHand(w: Wheel, t: Table, id: Id)
    requires w.Shaped() && |w.slots| < WORD / 2 && Agree(w, t, id)
    ensures var pos := InsertPos(w.ptr, |w.slots|);
            && pos < |w.slots| && Left(w, pos) == |w.slots|
            && (id in w.slots[pos] ==> id in w.last && w.last[id] == pos)
            && (id in t.due && w.last[id] == pos ==> t.due[id] == t.now + |w.slots|)
  {
    var pos := InsertPos(w.ptr, |w.slots|);
    InsertPosBehind(w.ptr, |w.slots|);
    if id in w.slots[pos] {
      assert Held(w.slots, id);
      assert Left(w, w.last[id]) >= Left(w, pos);
    }
  }

  ghost predicate Insertable(w: Wheel, t: Table, id: Id) {
    id in w.last && id < t.next && id !in t.closed && (id in t.due || w.last[id] == -1)
  }

  lemma InsertAgree(w: Wheel, t: Table, id: Id, x: Id)
    requires w.Shaped() && |w.slots| < WORD / 2 && Agree(w, t, id) && Agree(w, t, x) && Insertable(w, t, id)
    ensures Agree(Insert(w, id), t.(due := t.due[id := t.now + |w.slots|]), x)
  {
    BehindHand(w, t, id);
    var pos, w' := InsertPos(w.ptr, |w.slots|), Insert(w, id);
    if w.last[id] != pos {
      assert w'.slots[pos] == w.slots[pos] + [id];
      if x == id {
        assert id in w'.slots[pos];
      } else {
        forall j | 0 <= j < |w.slots| ensures x in w'.slots[j] <==> x in w.slots[j] {}
      }
    }
  }

  lemma InsertRefines(w: Wheel, t: Table, id: Id)
    requires Refines(w, t) && Insertable(w, t, id)
    ensures Refines(Insert(w, id), t.(due := t.due[id := t.now + |w.slots|]))
  {
    assert Agree(w, t, id);
    var w', t' := Insert(w, id), t.(due := t.due[id := t.now + |w.slots|]);
    forall x ensures Agree(w', t', x) {
      assert Agree(w, t, x);
      InsertAgree(w, t, id, x);
    }
    BehindHand(w, t, id);
  }

  lemma {:induction false} DyingExactly(slots: seq<seq<Id>>, cleared: seq<Id>)
    requires Distinct(cleared)
    ensures Distinct(Dying(slots, cleared))
    ensures forall id :: id in Dying(slots, cleared) <==> id in cleared && !Held(slots, id)
  {
    if cleared != [] {
      DyingExactly(slots, cleared[1..]);
    }
  }

  /** Dying objects keep the order they had in the slot. */
  lemma {:induction false} DyingInOrder(slots: seq<seq<Id>>, cleared: seq<Id>, i: nat, j: nat) returns (a: nat, b: nat)
    requires i < j < |Dying(slots, cleared)|
    ensures a < b < |cleared| && cleared[a] == Dying(slots, cleared)[i] && cleared[b] == Dying(slots, cleared)[j]
    decreases |cleared|
  {
    if Held(slots, cleared[0]) {
      a, b := DyingInOrder(slots, cleared[1..], i, j);
      a, b := a + 1, b + 1;
    } else if i > 0 {
      a, b := DyingInOrder(slots, cleared[1..], i - 1, j - 1);
      a, b := a + 1, b + 1;
    } else {
      b := DyingAt(slots, cleared[1..], j - 1);
      a, b := 0, b + 1;
    }
  }

  lemma {:induction false} DyingAt(slots: seq<seq<Id>>, cleared: seq<Id>, j: nat) returns (b: nat)
    requires j < |Dying(slots, cleared)|
    ensures b < |cleared| && cleared[b] == Dying(slots, cleared)[j]
    decreases |cleared|
  {
    if Held(slots, cleared[0]) {
      b := DyingAt(slots, cleared[1..], j);
      b := b + 1;
    } else if j > 0 {
      b := DyingAt(slots, cleared[1..], j - 1);
      b := b + 1;
    } else {
      b := 0;
    }
  }

  lemma HandMoves(ptr: nat, n: nat)
    requires ptr < n
    ensures (ptr + 1) % n == if ptr + 1 == n then 0 else ptr + 1
  {}

  lemma Nearer(w: Wheel, j: nat)
    requires w.Shaped() && j < |w.slots|
    ensures j == w.ptr <==> Left(w, j) == 1
    ensures j != w.ptr ==> Left(TickOnce(w), j) == Left(w, j) - 1 && TickOnce(w).slots[j] == w.slots[j]
    ensures TickOnce(w).slots[w.ptr] == []
  {
    HandMoves(w.ptr, |w.slots|);
  }

  /** A tick ends an object exactly when its time is up. */
  lemma LivesOn(w: Wheel, t: Table, id: Id)
    requires w.Shaped() && Agree(w, t, id)
    ensures var w' := TickOnce(w);
            && (id !in t.due ==> !Held(w'.slots, id) && id !in w.slots[w.ptr])
            && (id in t.due && t.due[id] == t.now + 1 ==> !Held(w'.slots, id) && id in w.slots[w.ptr])
            && (id in t.due && t.due[id] != t.now + 1 ==> Held(w'.slots, id) && Placed(w', id, t.due[id] - t.now - 1))
  {
    var w' := TickOnce(w);
    forall j | 0 <= j < |w.slots|
      ensures id in w'.slots[j] ==> j != w.ptr && id in w.slots[j] && Left(w', j) == Left(w, j) - 1
      ensures j == w.ptr <==> Left(w, j) == 1
    {
      Nearer(w, j);
    }
    if id in t.due && t.due[id] != t.now + 1 {
      Nearer(w, w.last[id]);
      assert id in w'.slots[w.last[id]];
    }
  }

  lemma TickAgree(w: Wheel, t: Table, id: Id)
    requires w.Shaped() && Tidy(w) && Agree(w, t, id)
    ensures Agree(TickOnce(w), TableStep(t, |w.slots|, Tick), id)
  {
    DyingExactly(TickOnce(w).slots, w.slots[w.ptr]);
    LivesOn(w, t, id);
  }

  lemma DistinctAppend(a: seq<Id>, b: seq<Id>)
    requires Distinct(a) && Distinct(b) && forall x :: x in a ==> x !in b
    ensures Distinct(a + b)
  {
    var s := a + b;
    forall i, j | 0 <= i < j < |s| ensures s[i] != s[j] {
      if i < |a| <= j { assert s[i] in a && s[j] in b; }
    }
  }

  lemma TickTidy(w: Wheel, t: Table)
    requires Refines(w, t)
    ensures Tidy(TickOnce(w))
  {
    var w' := TickOnce(w);
    DyingExactly(w'.slots, w.slots[w.ptr]);
    forall id | id in w.closed ensures id !in Dying(w'.slots, w.slots[w.ptr]) {
      assert Agree(w, t, id);
      LivesOn(w, t, id);
    }
    DistinctAppend(w.closed, Dying(w'.slots, w.slots[w.ptr]));
  }

  lemma AttachAgree(w: Wheel, t: Table, id: Id)
    requires w.Shaped() && w.next == t.next && Agree(w, t, id)
    ensures Agree(w.(last := w.last[w.next := -1], next := w.next + 1), t.(next := t.next + 1), id)
  {}

  lemma StepRefines(w: Wheel, t: Table, op: Op)
    requires Refines(w, t)
    ensures Refines(Step(w, op), TableStep(t, |w.slots|, op)) && |Step(w, op).slots| == |w.slots|
  {
    match op
    case Attach =>
      var w1, t1 := w.(last := w.last[w.next := -1], next := w.next + 1), t.(next := t.next + 1);
      assert Agree(w, t, w.next);
      forall id ensures Agree(w1, t1, id) {
        assert Agree(w, t, id);
        AttachAgree(w, t, id);
      }
      InsertRefines(w1, t1, w.next);
    case Refresh(id) =>
      assert Agree(w, t, id);
      if id in t.due { InsertRefines(w, t, id); }
    case Tick =>
      TickTidy(w, t);
      forall id ensures Agree(TickOnce(w), TableStep(t, |w.slots|, Tick), id) {
        assert Agree(w, t, id);
        TickAgree(w, t, id);
      }
  }

  function Run(w: Wheel, ops: seq<Op>): (r: Wheel)
    requires w.Shaped()
    ensures r.Shaped()
    decreases |ops|
  {
    if ops == [] then w else Step(Run(w, ops[..|ops| - 1]), ops[|ops| - 1])
  }

  function RunTable(n: nat, ops: seq<Op>): Table {
    if ops == [] then Table(0, map[], 0, {}) else TableStep(RunTable(n, ops[..|ops| - 1]), n, ops[|ops| - 1])
  }

  // ---- whole runs ----

  /** The wheel is a table of deadlines, for every number of slots and every run. */
  lemma {:induction false} RunRefines(n: nat, ops: seq<Op>)
    requires 0 < n < WORD / 2
    ensures Refines(Run(Start(n), ops), RunTable(n, ops)) && |Run(Start(n), ops).slots| == n
    decreases |ops|
  {
    if ops == [] {
      forall id ensures !Held(Start(n).slots, id) {}
    } else {
      RunRefines(n, ops[..|ops| - 1]);
      StepRefines(Run(Start(n), ops[..|ops| - 1]), RunTable(n, ops[..|ops| - 1]), ops[|ops| - 1]);
    }
  }

  function Attached(ops: seq<Op>): nat
    decreases |ops|
  {
    if ops == [] then 0 else Attached(ops[..|ops| - 1]) + if ops[|ops| - 1].Attach? then 1 else 0
  }

  /** Ticks since object `id` was created or last refreshed, -1 before its creation. Once `n` have
      passed, data no longer finds the object and refreshes nothing. */
  function Idle(n: nat, ops: seq<Op>, id: Id): (k: int)
    ensures k >= -1
    decreases |ops|
  {
    if ops == [] then -1
    else
      var before, op := ops[..|ops| - 1], ops[|ops| - 1];
      var k := Idle(n, before, id);
      match op
      case Attach => if Attached(before) == id then 0 else k
      case Refresh(i) => if i == id && 0 <= k < n then 0 else k
      case Tick => if k == -1 then -1 else k + 1
  }

  lemma {:induction false} TableIdle(n: nat, ops: seq<Op>, id: Id)
    requires 0 < n
    ensures var t, k := RunTable(n, ops), Idle(n, ops, id);
            && t.next == Attached(ops)
            && (k == -1 <==> id >= t.next)
            && (id in t.due <==> 0 <= k < n)
            && (id in t.due ==> t.due[id] == t.now + n - k)
            && (id in t.closed <==> k >= n)
    decreases |ops|
  {
    if ops != [] { TableIdle(n, ops[..|ops| - 1], id); }
  }

  /** An object is alive while fewer than `n` ticks have passed since its last refresh, and is
      destroyed, closing its connection once, on exactly the `n`-th. */
  lemma ClosesOnTime(n: nat, ops: seq<Op>, id: Id)
    requires 0 < n < WORD / 2
    ensures var w, k := Run(Start(n), ops), Idle(n, ops, id);
            && (Held(w.slots, id) <==> 0 <= k < n)
            && (id in w.closed <==> k >= n)
            && Tidy(w)
  {
    RunRefines(n, ops);
    TableIdle(n, ops, id);
    assert Agree(Run(Start(n), ops), RunTable(n, ops), id);
  }

  // ---- the timer object ----

  /** The result of reading the timer descriptor: expirations, EAGAIN/EINTR, or an error that throws. */
  datatype TimerRead = Expired(times: nat) | NotReady | Failed

  function Ticks(k: nat): (ops: seq<Op>)
    ensures |ops| == k && forall i :: 0 <= i < k ==> ops[i] == Tick
  {
    seq(k, _ => Tick)
  }

  class Timer {
    var slots: seq<seq<Id>>
    var ptr: nat
    var last: map<Id, int>
    var next: Id
    var closed: seq<Id>

    ghost function View(): Wheel
      reads this
    {
      Wheel(slots, ptr, last, next, closed)
    }

    ghost predicate Valid()
      reads this
    {
      View().Shaped()
    }

    constructor (heartbeatNum: nat)
      requires heartbeatNum > 0
      ensures Valid() && View() == Start(heartbeatNum)
    {
      slots, ptr, last, next, closed := seq(heartbeatNum, _ => []), 0, map[], 0, [];
    }

    method InsertInThread(id: Id)
      requires Valid() && id in last
      modifies this`slots, this`last
      ensures Valid() && View() == Insert(old(View()), id)
    {
      var pos := InsertPos(ptr, |slots|);
      if last[id] != pos {
        last := last[id := pos];
        slots := slots[pos := slots[pos] + [id]];
      }
    }

    /** `SaveLifeMechanism`: a new heartbeat object for a connection. */
    method AttachNew() returns (id: Id)
      requires Valid()
      modifies this
      ensures Valid() && View() == Step(old(View()), Attach) && id == old(next)
    {
      id := next;
      last, next := last[id := -1], next + 1;
      InsertInThread(id);
    }

    /** Data arrived: refresh the heartbeat object if the weak reference still finds one. */
    method OnData(id: Id)
      requires Valid()
      modifies this
      ensures Valid() && View() == Step(old(View()), Refresh(id))
    {
      if id in last && Held(slots, id) {
        InsertInThread(id);
      }
    }

    method TickNow()
      requires Valid()
      modifies this
      ensures Valid() && View() == TickOnce(old(View()))
    {
      var cleared := slots[ptr];
      slots := slots[ptr := []];
      ptr := (ptr + 1) % |slots|;
      var i := 0;
      while i < |cleared|
        invariant i <= |cleared|
        invariant View() == old(View()).(slots := slots, ptr := ptr, closed := closed)
        invariant slots == old(slots)[old(ptr) := []] && ptr == (old(ptr) + 1) % |slots|
        invariant closed + Dying(slots, cleared[i..]) == old(closed) + Dying(slots, cleared)
      {
        assert cleared[i..][1..] == cleared[i + 1..];
        if !Held(slots, cleared[i]) {
          closed := closed + [cleared[i]];
          ghost var rest := Dying(slots, cleared[i + 1..]);
          assert closed + rest == closed[..|closed| - 1] + ([cleared[i]] + rest);
        }
        i := i + 1;
      }
    }

    /** The readable event of the timer descriptor: one tick per expiration that has accumulated. */
    method OnReadable(r: TimerRead) returns (thrown: bool)
      requires Valid()
      modifies this
      ensures Valid() && thrown == r.Failed?
      ensures View() == Run(old(View()), if r.Expired? then Ticks(r.times) else [])
    {
      thrown := r.Failed?;
      if r.Expired? {
        for i := 0 to r.times
          invariant Valid() && View() == Run(old(View()), Ticks(i))
        {
          TickNow();
          assert Ticks(i + 1)[..i] == Ticks(i);
        }
      }
    }
  }
}
