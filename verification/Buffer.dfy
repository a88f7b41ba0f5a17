/** The growing, compacting byte buffer of src/buffer.cpp. */
module Buffer {
  import opened Bytes

  /** Size of the second scatter segment of `ReadFd`. */
  const EXTRA: nat := 65536

  /** Copies `a[src..src + n]` to `a[dst..]` in place; the two ranges may overlap. */
  method MoveDown(a: array<Byte>, dst: nat, src: nat, n: nat)
    requires dst <= src && src + n <= a.Length
    modifies a
    ensures a[dst..dst + n] == old(a[src..src + n])
    ensures a[..dst] == old(a[..dst]) && a[dst + n..] == old(a[dst + n..])
  {
    var i := 0;
    while i < n
      invariant i <= n
      invariant a[dst..dst + i] == old(a[src..src + i])
      invariant forall k :: 0 <= k < a.Length && !(dst <= k < dst + i) ==> a[k] == old(a[k])
    {
      a[dst + i] := a[src + i];
      i := i + 1;
      assert old(a[src..src + i]) == old(a[src..src + i - 1]) + [old(a[src + i - 1])];
    }
  }

  /** Copies a byte string into `a` at `dst`. */
  method CopyIn(a: array<Byte>, dst: nat, s: seq<Byte>)
    requires dst + |s| <= a.Length
    modifies a
    ensures a[..dst] == old(a[..dst])
    ensures a[dst..dst + |s|] == s
    ensures a[dst + |s|..] == old(a[dst + |s|..])
  {
    var i := 0;
    while i < |s|
      invariant i <= |s|
      invariant forall k :: 0 <= k < dst ==> a[k] == old(a[k])
      invariant forall k :: 0 <= k < i ==> a[dst + k] == s[k]
      invariant forall k :: dst + |s| <= k < a.Length ==> a[k] == old(a[k])
    {
      a[dst + i] := s[i];
      i := i + 1;
    }
  }

  class Buffer {
    var data: array<Byte>
    var readPos: nat
    var writePos: nat

    ghost predicate Valid()
      reads this
    {
      readPos <= writePos <= data.Length
    }

    /** The bytes written and not yet read: the queue the buffer stands for. */
    ghost function Contents(): (s: seq<Byte>)
      requires Valid()
      reads this, data
      ensures |s| == writePos - readPos
    {
      data[readPos..writePos]
    }

    constructor (size: nat)
      ensures Valid() && fresh(data) && Contents() == [] && data.Length == size
    {
      data := new Byte[size];
      readPos, writePos := 0, 0;
    }

    function Size(): nat
      requires Valid()
      reads this
    {
      writePos - readPos
    }

    predicate Empty()
      requires Valid()
      reads this
    {
      readPos == writePos
    }

    function Capacity(): nat
      reads this
    {
      data.Length
    }

    /** Slides the unread bytes to the front. */
    method MovePtr()
      requires Valid()
      modifies this, data
      ensures Valid() && data == old(data)
      ensures readPos == 0 && Contents() == old(Contents())
    {
      if readPos != 0 {
        MoveDown(data, 0, readPos, writePos - readPos);
        writePos := writePos - readPos;
        readPos := 0;
      }
    }

    method Resize(size: nat)
      requires Valid() && data.Length <= size
      modifies this
      ensures Valid() && fresh(data) && data.Length == size
      ensures readPos == old(readPos) && Contents() == old(Contents())
    {
      var bigger := new Byte[size];
      CopyIn(bigger, 0, data[..]);
      assert bigger[readPos..writePos] == data[readPos..writePos] by {
        assert forall i :: 0 <= i < data.Length ==> bigger[i] == bigger[0..data.Length][i];
      }
      data := bigger;
    }

    method Expand(size: nat)
      requires Valid()
      modifies this, data
      ensures Valid() && (data == old(data) || fresh(data))
      ensures readPos == 0 && Contents() == old(Contents())
      ensures Capacity() == Max(old(Capacity()), size)
    {
      MovePtr();
      if size > data.Length {
        Resize(size);
      }
    }

    /** Appends at `writePos`, where there is room. */
    method Append(message: seq<Byte>)
      requires Valid() && writePos + |message| <= data.Length
      modifies this, data
      ensures Valid() && data == old(data) && writePos == old(writePos) + |message|
      ensures Contents() == old(Contents()) + message
    {
      ghost var before := data[..writePos];
      CopyIn(data, writePos, message);
      writePos := writePos + |message|;
      assert data[..writePos] == before + message by {
        SplitAt(data[..writePos], |before|);
      }
      assert data[readPos..writePos] == (before + message)[readPos..];
    }

    /** Appends a message, compacting first and growing only if that is not enough. */
    method WriteBuffer(message: seq<Byte>)
      requires Valid()
      modifies this, data
      ensures Valid() && (data == old(data) || fresh(data))
      ensures Contents() == old(Contents()) + message
      ensures Capacity() == Max(old(Capacity()), |Contents()|)
    {
      if writePos + |message| > data.Length {
        MovePtr();
        if writePos + |message| > data.Length {
          Resize(writePos + |message|);
        }
      }
      Append(message);
    }

    /** Moves the overflow of a scatter read that filled the buffer in behind the rest. */
    method Spill(extra: seq<Byte>)
      requires Valid() && writePos == data.Length
      modifies this, data
      ensures Valid() && (data == old(data) || fresh(data))
      ensures Contents() == old(Contents()) + extra
      ensures Capacity() == Max(old(Capacity()), |Contents()|)
    {
      MovePtr();
      var need := |extra|;
      if need + writePos > data.Length {
        Expand(need + writePos);
      }
      Append(extra);
    }

    /** A scatter read: the tail of the buffer first, a stack block for the overflow.
        The kernel has `offered` ready and delivers what both segments can hold. */
    method ReadFd(offered: seq<Byte>) returns (n: nat)
      requires Valid()
      modifies this, data
      ensures Valid() && (data == old(data) || fresh(data))
      ensures n == Min(|offered|, old(data.Length - writePos) + 65536)
      ensures Contents() == old(Contents()) + offered[..n]
      ensures Capacity() == Max(old(Capacity()), |Contents()|)
    {
      var room := data.Length - writePos;
      n := Min(|offered|, room + EXTRA);
      if n == 0 {
        return;
      }
      if n >= room {
        var extra := offered[room..n];
        SplitAt(offered[..n], room);
        Assoc(Contents(), offered[..room], extra);
        Append(offered[..room]);
        Spill(extra);
      } else {
        Append(offered[..n]);
      }
    }

    /** Hands the unread bytes to the kernel, which takes the first `taken` of them. */
    method WriteFd(taken: nat) returns (sent: seq<Byte>)
      requires Valid() && taken <= Size()
      modifies this
      ensures Valid() && data == old(data)
      ensures sent + Contents() == old(Contents()) && |sent| == taken
    {
      sent := data[readPos..readPos + taken];
      readPos := readPos + taken;
      if readPos == writePos {
        readPos, writePos := 0, 0;
      }
    }

    /** Takes everything. */
    method ReadAll() returns (message: seq<Byte>)
      requires Valid()
      modifies this
      ensures Valid() && data == old(data)
      ensures message == old(Contents()) && Contents() == []
    {
      message := data[readPos..writePos];
      readPos, writePos := 0, 0;
    }

    /** Takes `len` bytes, or throws `out_of_range` (`None`) and changes nothing. */
    method ReadBuffer(len: nat) returns (message: Option<seq<Byte>>)
      requires Valid()
      modifies this
      ensures Valid() && data == old(data)
      ensures message.Some? <==> len <= old(|Contents()|)
      ensures message.Some? ==> |message.value| == len && message.value + Contents() == old(Contents())
      ensures message.None? ==> Contents() == old(Contents())
    {
      if Size() < len {
        return None;
      }
      message := Some(data[readPos..readPos + len]);
      if Size() == len {
        readPos, writePos := 0, 0;
      } else {
        readPos := readPos + len;
      }
    }

    /** The first `len` unread bytes, left in place (`PeekUnsignedInt`, `CReadData`). */
    method Peek(len: nat) returns (front: Option<seq<Byte>>)
      requires Valid()
      ensures front.Some? <==> len <= |Contents()|
      ensures front.Some? ==> front.value == Contents()[..len]
    {
      if Size() < len {
        return None;
      }
      front := Some(data[readPos..readPos + len]);
    }
  }

  /** One use of a buffer by its owner. */
  datatype Op = Write(message: seq<Byte>) | Receive(offered: seq<Byte>) | Send(taken: nat) | Take(len: nat) | TakeAll

  /** What an operation put into and took out of the queue. */
  datatype Effect = Effect(entered: seq<Byte>, left: seq<Byte>)

  /** `op` takes the queue from `q` to `r` with effect `fx`: bytes enter at the back and leave at
      the front, and each operation moves exactly what it was asked to. */
  ghost predicate QueueStep(q: seq<Byte>, op: Op, fx: Effect, r: seq<Byte>) {
    && fx.left + r == q + fx.entered
    && match op
       case Write(m) => fx == Effect(m, [])
       case Receive(offered) =>
         fx.left == [] && fx.entered <= offered && (fx.entered == offered || |fx.entered| >= EXTRA)
       case Send(taken) => fx.entered == [] && |fx.left| == Min(taken, |q|)
       case Take(len) => fx.entered == [] && |fx.left| == (if len <= |q| then len else 0)
       case TakeAll => fx == Effect([], q)
  }

  ghost predicate QueueRun(qs: seq<seq<Byte>>, ops: seq<Op>, fxs: seq<Effect>) {
    && |qs| == |ops| + 1 && |fxs| == |ops|
    && forall i :: 0 <= i < |ops| ==> QueueStep(qs[i], ops[i], fxs[i], qs[i + 1])
  }

  function AllEntered(fxs: seq<Effect>): seq<Byte> {
    if fxs == [] then [] else AllEntered(fxs[..|fxs| - 1]) + fxs[|fxs| - 1].entered
  }

  function AllLeft(fxs: seq<Effect>): seq<Byte> {
    if fxs == [] then [] else AllLeft(fxs[..|fxs| - 1]) + fxs[|fxs| - 1].left
  }

  /** Over a whole run the bytes that left, then those still queued, are the bytes that entered, in order. */
  lemma {:induction false} QueueConserves(qs: seq<seq<Byte>>, ops: seq<Op>, fxs: seq<Effect>)
    requires QueueRun(qs, ops, fxs) && qs[0] == []
    ensures AllLeft(fxs) + qs[|ops|] == AllEntered(fxs)
    decreases |ops|
  {
    if ops != [] {
      var k := |ops| - 1;
      QueueConserves(qs[..k + 1], ops[..k], fxs[..k]);
      assert QueueStep(qs[k], ops[k], fxs[k], qs[k + 1]);
      Assoc(AllLeft(fxs[..k]), fxs[k].left, qs[k + 1]);
      Assoc(AllLeft(fxs[..k]), qs[k], fxs[k].entered);
    }
  }

  /** Any sequence of operations on a buffer is a run of a byte queue, and the capacity ends as
      the larger of the initial capacity and the largest content. */
  method Drive(b: Buffer, ops: seq<Op>) returns (ghost qs: seq<seq<Byte>>, fxs: seq<Effect>, sizes: seq<nat>)
    requires b.Valid() && b.Contents() == []
    modifies b, b.data
    ensures b.Valid()
    ensures QueueRun(qs, ops, fxs) && qs[0] == [] && qs[|ops|] == b.Contents()
    ensures AllLeft(fxs) + b.Contents() == AllEntered(fxs)
    ensures |sizes| == |ops| && forall i :: 0 <= i < |ops| ==> sizes[i] == |qs[i + 1]|
    ensures b.Capacity() == Peak(old(b.Capacity()), sizes)
  {
    qs, fxs, sizes := [[]], [], [];
    for i := 0 to |ops|
      invariant b.Valid() && (b.data == old(b.data) || fresh(b.data))
      invariant QueueRun(qs, ops[..i], fxs) && qs[0] == [] && qs[i] == b.Contents()
      invariant |sizes| == i && forall k :: 0 <= k < i ==> sizes[k] == |qs[k + 1]|
      invariant b.Capacity() == Peak(old(b.Capacity()), sizes)
    {
      var fx := Apply(b, ops[i]);
      PeakSnoc(old(b.Capacity()), sizes, b.Size());
      fxs, sizes := fxs + [fx], sizes + [b.Size()];
      qs := qs + [b.Contents()];
    }
    assert ops[..|ops|] == ops;
    QueueConserves(qs, ops, fxs);
  }

  method Apply(b: Buffer, op: Op) returns (fx: Effect)
    requires b.Valid()
    modifies b, b.data
    ensures b.Valid() && (b.data == old(b.data) || fresh(b.data))
    ensures QueueStep(old(b.Contents()), op, fx, b.Contents())
    ensures b.Capacity() == Max(old(b.Capacity()), b.Size())
  {
    match op
    case Write(m) =>
      b.WriteBuffer(m);
      fx := Effect(m, []);
    case Receive(offered) =>
      var n := b.ReadFd(offered);
      fx := Effect(offered[..n], []);
    case Send(taken) =>
      var out := b.WriteFd(Min(taken, b.Size()));
      fx := Effect([], out);
    case Take(len) =>
      var out := b.ReadBuffer(len);
      fx := Effect([], if out.Some? then out.value else []);
    case TakeAll =>
      var out := b.ReadAll();
      fx := Effect([], out);
  }

  /** The larger of the initial capacity and the largest content size seen. */
  function Peak(initial: nat, sizes: seq<nat>): (p: nat)
    ensures p >= initial && forall i :: 0 <= i < |sizes| ==> sizes[i] <= p
    ensures p == initial || p in sizes
  {
    if sizes == [] then initial else Max(Peak(initial, sizes[..|sizes| - 1]), sizes[|sizes| - 1])
  }

  lemma PeakSnoc(initial: nat, sizes: seq<nat>, n: nat)
    ensures Peak(initial, sizes + [n]) == Max(Peak(initial, sizes), n)
  {
    assert (sizes + [n])[..|sizes|] == sizes;
  }
}
