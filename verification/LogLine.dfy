/** The fixed-size log line of include/logger.h and src/logger.cpp. */
module LogLine {
  import opened Bytes
  import opened Buffer
  import opened Logging

  /** Text is cut to the room that is left; a number is written whole or not at all. */
  datatype Piece = Text(bytes: seq<Byte>) | Number(digits: seq<Byte>)

  const NEWLINE: Byte := 10

  function Add(line: seq<Byte>, p: Piece): (r: seq<Byte>)
    requires |line| <= LINE_SIZE
    ensures |r| <= LINE_SIZE && line <= r
  {
    match p
    case Text(b) => line + b[..Min(|b|, LINE_SIZE - |line|)]
    case Number(d) => if |line| + |d| <= LINE_SIZE then line + d else line
  }

  function Line(ps: seq<Piece>): (r: seq<Byte>)
    ensures |r| <= LINE_SIZE
  {
    if ps == [] then [] else Add(Line(ps[..|ps| - 1]), ps[|ps| - 1])
  }

  function Finished(line: seq<Byte>): seq<Byte> {
    if |line| < LINE_SIZE then line + [NEWLINE] else line
  }

  function Prefix(s: seq<Byte>, n: nat): seq<Byte> {
    s[..Min(|s|, n)]
  }

  function Written(p: Piece): seq<Byte> {
    match p case Text(b) => b case Number(d) => d
  }

  function Texts(ps: seq<Piece>): seq<Byte> {
    if ps == [] then [] else Texts(ps[..|ps| - 1]) + Written(ps[|ps| - 1])
  }

  /** A number fits behind `s`, of which at most a line is there; text can always be cut. */
  predicate Fits(s: seq<Byte>, p: Piece) {
    p.Number? ==> Min(|s|, LINE_SIZE) + |p.digits| <= LINE_SIZE
  }

  /** The pieces without the numbers that do not fit where they stand. */
  function Kept(ps: seq<Piece>): seq<Piece> {
    if ps == [] then []
    else
      var before, last := Kept(ps[..|ps| - 1]), ps[|ps| - 1];
      if Fits(Texts(before), last) then before + [last] else before
  }

  lemma PrefixGrows(s: seq<Byte>, p: Piece)
    ensures Add(Prefix(s, LINE_SIZE), p)
         == if Fits(s, p) then Prefix(s + Written(p), LINE_SIZE) else Prefix(s, LINE_SIZE)
  {
    if p.Number? && Fits(s, p) && |s| > LINE_SIZE {
      assert p.digits == [] && s + [] == s;
    }
  }

  lemma TextsSnoc(ps: seq<Piece>, p: Piece)
    ensures Texts(ps + [p]) == Texts(ps) + Written(p)
  {
    assert (ps + [p])[..|ps|] == ps;
  }

  /** Every line is the longest prefix that fits of its pieces, without the numbers that did not
      fit where they stood. */
  lemma {:induction false} LineIsPrefix(ps: seq<Piece>)
    ensures Line(ps) == Prefix(Texts(Kept(ps)), 4096)
    decreases |ps|
  {
    if ps != [] {
      var before, last := ps[..|ps| - 1], ps[|ps| - 1];
      LineIsPrefix(before);
      PrefixGrows(Texts(Kept(before)), last);
      TextsSnoc(Kept(before), last);
    }
  }

  lemma {:induction false} KeptSize(ps: seq<Piece>)
    ensures |Kept(ps)| <= |ps|
    decreases |ps|
  {
    if ps != [] { KeptSize(ps[..|ps| - 1]); }
  }

  lemma KeptSnoc(before: seq<Piece>, last: Piece)
    ensures Kept(before + [last]) == before + [last] <==> Kept(before) == before && Fits(Texts(before), last)
  {
    var ps := before + [last];
    assert ps[..|before|] == before;
    KeptSize(before);
    if Kept(ps) == ps {
      assert Kept(before) == ps[..|before|];
    }
  }

  /** The number at `i`, if it is one, fits behind all that is before it. */
  ghost predicate FitsAt(ps: seq<Piece>, i: nat) {
    i < |ps| ==> Fits(Texts(ps[..i]), ps[i])
  }

  lemma FitsSnoc(before: seq<Piece>, last: Piece)
    ensures (forall i: nat :: FitsAt(before + [last], i)) <==>
            (forall i: nat :: FitsAt(before, i)) && Fits(Texts(before), last)
  {
    var ps, n := before + [last], |before|;
    assert ps[..n] == before;
    assert FitsAt(ps, n) == Fits(Texts(before), last);
    forall i: nat | i < n ensures FitsAt(ps, i) == FitsAt(before, i) {
      assert ps[..i] == before[..i];
    }
    assert forall i: nat :: i >= n ==> FitsAt(before, i);
    assert forall i: nat :: i > n ==> FitsAt(ps, i);
  }

  /** Nothing is left out exactly when each number fits behind all that is before it. */
  lemma {:induction false} KeptExactly(ps: seq<Piece>)
    ensures Kept(ps) == ps <==> forall i: nat :: FitsAt(ps, i)
    decreases |ps|
  {
    if ps != [] {
      var n := |ps| - 1;
      var before := ps[..n];
      KeptExactly(before);
      assert ps == before + [ps[n]];
      KeptSnoc(before, ps[n]);
      FitsSnoc(before, ps[n]);
    }
  }

  lemma {:induction false} KeptWhole(ps: seq<Piece>)
    requires |Texts(ps)| <= LINE_SIZE
    ensures Kept(ps) == ps
    decreases |ps|
  {
    if ps != [] {
      KeptWhole(ps[..|ps| - 1]);
      KeptSnoc(ps[..|ps| - 1], ps[|ps| - 1]);
      assert ps == ps[..|ps| - 1] + [ps[|ps| - 1]];
    }
  }

  /** In particular a line whose pieces fit together is all of them. */
  lemma WholeLine(ps: seq<Piece>)
    requires |Texts(ps)| <= LINE_SIZE
    ensures Kept(ps) == ps && Line(ps) == Texts(ps)
  {
    KeptWhole(ps);
    LineIsPrefix(ps);
  }

  /** The message a logger hands over: the pieces kept and a newline, cut to the line size. It
      always fits the backend's buffers. */
  lemma FinishedIsPrefix(ps: seq<Piece>)
    ensures Finished(Line(ps)) == Prefix(Texts(Kept(ps)) + [10], 4096)
    ensures |Finished(Line(ps))| <= 4096 <= BUFFER_SIZE
  {
    LineIsPrefix(ps);
  }

  class Logger {
    const buf: array<Byte>
    var used: nat

    ghost predicate Valid()
      reads this
    {
      buf.Length == LINE_SIZE && used <= LINE_SIZE
    }

    ghost function Contents(): seq<Byte>
      requires Valid()
      reads this, buf
    {
      buf[..used]
    }

    constructor ()
      ensures Valid() && fresh(buf) && Contents() == []
    {
      buf := new Byte[LINE_SIZE];
      used := 0;
    }

    method Put(p: Piece)
      requires Valid()
      modifies this, buf
      ensures Valid() && Contents() == Add(old(Contents()), p)
    {
      match p {
        case Text(b) =>
          if LINE_SIZE - used > 0 {
            Copy(b[..Min(|b|, LINE_SIZE - used)]);
          } else {
            assert b[..Min(|b|, LINE_SIZE - used)] == [];
          }
        case Number(d) =>
          if used + |d| <= LINE_SIZE {
            Copy(d);
          }
      }
    }

    method Copy(b: seq<Byte>)
      requires Valid() && used + |b| <= LINE_SIZE
      modifies this, buf
      ensures Valid() && Contents() == old(Contents()) + b
    {
      CopyIn(buf, used, b);
      SplitAt(buf[..used + |b|], used);
      used := used + |b|;
    }

    /** The destructor: a newline if there is room, then the whole line to the backend. */
    method Finish(log: AsyncLogging)
      requires Valid()
      modifies this, buf, log
      ensures Valid() && Contents() == Finished(old(Contents()))
      ensures log.View() == AppendLocked(old(log.View()), Contents())
    {
      if LINE_SIZE - used > 0 {
        Copy([NEWLINE]);
      }
      var _ := log.Append(buf[..used]);
    }
  }
}
