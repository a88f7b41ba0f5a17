/** The round-robin choice of an I/O loop (src/eventloopthreadpool.cpp), with live resizing. */
module ThreadPool {
  import opened Bytes

  type LoopId = nat

  datatype Pool = Pool(pos: nat, running: bool, num: nat, maxnum: nat, loops: seq<LoopId>)

  datatype Op = Start | SetSize(n: nat) | Pick | Close

  function New(): Pool {
    Pool(0, false, 1, 1, [])
  }

  /** Slots of the started loops: one loop per slot, `Start` numbers them. */
  function Step(p: Pool, op: Op): Pool {
    match op
    case Start => p.(maxnum := p.num, loops := seq(p.num, i => i), running := true)
    case SetSize(n) => p.(num := if p.running then Max(Min(n, p.maxnum), 1) else Max(1, n))
    case Pick => if p.running && p.num > 0 then p.(pos := (p.pos % p.num + 1) % p.num) else p
    case Close => p.(running := false)
  }

  function Picked(p: Pool): Option<nat> {
    if p.running && p.num > 0 then Some(p.pos % p.num) else None
  }

  function Run(p: Pool, ops: seq<Op>): Pool {
    if ops == [] then p else Step(Run(p, ops[..|ops| - 1]), ops[|ops| - 1])
  }

  ghost predicate Inv(p: Pool) {
    && p.num >= 1
    && (p.running ==> p.num <= p.maxnum == |p.loops|)
    && (forall i :: 0 <= i < |p.loops| ==> p.loops[i] == i)
  }

  /** However sizes are changed between picks, a running pool always answers with a started and
      active loop, and a stopped one with none. */
  lemma {:induction false} IndexInRange(ops: seq<Op>)
    ensures var p := Run(New(), ops);
            && Inv(p)
            && (Picked(p).Some? <==> p.running)
            && (p.running ==> Picked(p).value < p.num <= |p.loops| && p.loops[Picked(p).value] == Picked(p).value)
    decreases |ops|
  {
    if ops != [] { IndexInRange(ops[..|ops| - 1]); }
  }

  /** A size asked for is the size there is: from one up while the pool is stopped, and within the
      started loops while it runs. It starts nothing, stops nothing and does not move the turn. */
  lemma SizeExactly(ops: seq<Op>, n: nat)
    ensures var p := Run(New(), ops);
            var q := Step(p, SetSize(n));
            && q.running == p.running && q.loops == p.loops && q.pos == p.pos
            && q.num == if n == 0 then 1 else if p.running && n > |p.loops| then |p.loops| else n
  {
    IndexInRange(ops);
  }

  /** Starting runs as many loops as the size, the first of a new pool being the first to be picked;
      closing leaves nothing to pick; a pick moves the turn to the next active loop and does nothing else. */
  lemma TurnsExactly(ops: seq<Op>)
    ensures Picked(Step(New(), Start)) == Some(0) && |Step(New(), Start).loops| == 1
    ensures var p := Run(New(), ops);
            && p.num > 0 && Step(p, Start).running && Step(p, Start).num == p.num == |Step(p, Start).loops|
            && Picked(Step(p, Start)) == Some(p.pos % p.num)
            && Picked(Step(p, Close)) == None && Step(p, Close).num == p.num
            && var q := Step(p, Pick);
               && q == p.(pos := q.pos)
               && (p.running ==> Picked(q) == Some(if Picked(p).value + 1 == p.num then 0 else Picked(p).value + 1))
  {
    IndexInRange(ops);
    var p := Run(New(), ops);
    NextIsMod(p.pos % p.num, p.num);
  }

  // ---- fairness ----

  /** Slot after `q` on a ring of `n`. */
  function Next(q: nat, n: nat): (r: nat)
    requires q < n
    ensures r < n
  {
    if q + 1 == n then 0 else q + 1
  }

  /** The slots picked by `k` picks in a row, starting at `q`. */
  function Picks(q: nat, n: nat, k: nat): (s: seq<nat>)
    requires q < n
    ensures |s| == k
    decreases k
  {
    if k == 0 then [] else [q] + Picks(Next(q, n), n, k - 1)
  }

  function Times(s: seq<nat>, i: nat): nat {
    multiset(s)[i]
  }

  /** Slot `i` lies on the way from `q` to `e`. */
  predicate OnArc(q: nat, e: nat, i: nat) {
    if q <= e then q <= i < e else i >= q || i < e
  }

  lemma TimesCons(q: nat, s: seq<nat>, i: nat)
    ensures Times([q] + s, i) == Times(s, i) + if i == q then 1 else 0
  {}

  /** After whole laps and a part of one, every slot has had one pick per lap and those on the
      part one more. */
  lemma {:induction false} Laps(q: nat, n: nat, k: nat) returns (laps: nat, e: nat)
    requires q < n
    ensures e < n
    ensures forall i :: 0 <= i < n ==> Times(Picks(q, n, k), i) == laps + if OnArc(q, e, i) then 1 else 0
    decreases k
  {
    if k == 0 {
      laps, e := 0, q;
    } else {
      var q' := Next(q, n);
      var l, f := Laps(q', n, k - 1);
      forall i | 0 <= i < n
        ensures Times(Picks(q, n, k), i) == l + (if OnArc(q', f, i) then 1 else 0) + if i == q then 1 else 0
      {
        TimesCons(q, Picks(q', n, k - 1), i);
      }
      laps, e := if f == q then l + 1 else l, f;
    }
  }

  /** Over any run of picks without a resize, no active loop gets two connections more than another. */
  lemma Fair(q: nat, n: nat, k: nat, i: nat, j: nat)
    requires q < n && i < n && j < n
    ensures Times(Picks(q, n, k), i) <= Times(Picks(q, n, k), j) + 1
  {
    var laps, e := Laps(q, n, k);
  }

  class EventLoopThreadPool {
    var pos: nat
    var running: bool
    var num: nat
    var maxnum: nat
    var loops: seq<LoopId>

    ghost function View(): Pool
      reads this
    {
      Pool(pos, running, num, maxnum, loops)
    }

    ghost predicate Valid()
      reads this
    {
      Inv(View())
    }

    constructor ()
      ensures Valid() && View() == New()
    {
      pos, running, num, maxnum, loops := 0, false, 1, 1, [];
    }

    method GetOneThread() returns (loop: Option<LoopId>)
      requires Valid()
      modifies this`pos
      ensures Valid() && View() == Step(old(View()), Pick)
      ensures loop == Picked(old(View()))
    {
      if !running {
        return None;
      }
      pos := pos % num;
      loop := Some(loops[pos]);
      pos := (pos + 1) % num;
    }

    method SetSize(n: nat)
      requires Valid()
      modifies this`num
      ensures Valid() && View() == Step(old(View()), Op.SetSize(n))
    {
      num := if running then Max(Min(n, maxnum), 1) else Max(1, n);
    }

    method Start()
      requires Valid()
      modifies this
      ensures Valid() && View() == Step(old(View()), Op.Start)
    {
      maxnum := num;
      loops := [];
      for i := 0 to num
        invariant |loops| == i && forall k :: 0 <= k < i ==> loops[k] == k
        invariant View() == old(View()).(maxnum := num, loops := loops)
      {
        loops := loops + [i];
      }
      running := true;
    }

    /** `k` picks in a row hand out the slots of `Picks`. */
    method PickMany(k: nat) returns (slots: seq<LoopId>)
      requires Valid() && running
      modifies this`pos
      ensures Valid() && slots == Picks(old(pos) % num, num, k)
    {
      slots := [];
      var i := 0;
      while i < k
        invariant i <= k && Valid()
        invariant slots + Picks(pos % num, num, k - i) == Picks(old(pos) % num, num, k)
      {
        ghost var before := slots;
        ghost var q := pos % num;
        var slot := PickOne();
        slots := slots + [slot];
        i := i + 1;
        Assoc(before, [q], Picks(pos % num, num, k - i));
      }
    }

    method PickOne() returns (slot: LoopId)
      requires Valid() && running
      modifies this`pos
      ensures Valid() && slot == old(pos) % num && pos % num == Next(old(pos) % num, num)
    {
      NextIsMod(pos % num, num);
      var loop := GetOneThread();
      slot := loop.value;
    }
  }

  lemma NextIsMod(q: nat, n: nat)
    requires q < n
    ensures (q + 1) % n == Next(q, n) && Next(q, n) % n == Next(q, n)
  {}
}
