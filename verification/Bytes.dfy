/** Bytes, byte strings and the big-endian integers of both wire formats. */
module Bytes {

  type Byte = x: int | 0 <= x < 256
  type U16 = n: nat | n < 0x1_0000
  type U32 = n: nat | n < 0x1_0000_0000
  type U64 = n: nat | n < 0x1_0000_0000_0000_0000

  datatype Option<+T> = None | Some(value: T)

  function Max(a: int, b: int): int { if a < b then b else a }

  function Min(a: int, b: int): int { if a < b then a else b }

  lemma Assoc<T>(a: seq<T>, b: seq<T>, c: seq<T>)
    ensures a + b + c == a + (b + c)
  {}

  lemma SplitAt<T>(s: seq<T>, n: nat)
    requires n <= |s|
    ensures s[..n] + s[n..] == s
  {}

  /** The concatenation of a list of byte strings. */
  function Flatten(parts: seq<seq<Byte>>): seq<Byte> {
    if parts == [] then [] else parts[0] + Flatten(parts[1..])
  }

  lemma {:induction false} FlattenAppend(a: seq<seq<Byte>>, b: seq<seq<Byte>>)
    ensures Flatten(a + b) == Flatten(a) + Flatten(b)
  {
    if a == [] {
      assert a + b == b;
    } else {
      assert (a + b)[1..] == a[1..] + b;
      FlattenAppend(a[1..], b);
    }
  }

  lemma FlattenCons(m: seq<Byte>, a: seq<seq<Byte>>)
    ensures Flatten([m] + a) == m + Flatten(a)
  {
    assert ([m] + a)[1..] == a;
  }

  lemma FlattenSnoc(a: seq<seq<Byte>>, m: seq<Byte>)
    ensures Flatten(a + [m]) == Flatten(a) + m
  {
    FlattenAppend(a, [m]);
    assert Flatten([m]) == m + Flatten([]);
  }

  function Pow256(w: nat): (p: nat)
    ensures p > 0
  {
    if w == 0 then 1 else 256 * Pow256(w - 1)
  }

  /** The low `w` bytes of `n`, most significant byte first. */
  function BigEndian(n: nat, w: nat): (s: seq<Byte>)
    ensures |s| == w
  {
    if w == 0 then [] else BigEndian(n / 256, w - 1) + [n % 256]
  }

  function FromBigEndian(s: seq<Byte>): (n: nat)
    ensures n < Pow256(|s|)
  {
    if s == [] then 0 else FromBigEndian(s[..|s| - 1]) * 256 + s[|s| - 1]
  }

  /** Reading back an encoded integer gives it reduced to the width it was written with. */
  lemma {:induction false} ReadBack(n: nat, w: nat)
    ensures FromBigEndian(BigEndian(n, w)) == n % Pow256(w)
  {
    if w > 0 {
      var s := BigEndian(n, w);
      assert s[..|s| - 1] == BigEndian(n / 256, w - 1);
      ReadBack(n / 256, w - 1);
      DivModSplit(n, Pow256(w - 1));
    }
  }

  lemma DivModSplit(n: nat, p: nat)
    requires p > 0
    ensures ((n / 256) % p) * 256 + n % 256 == n % (256 * p)
  {
    var q, r := n / 256, n % 256;
    var a, b := q / p, q % p;
    assert n == (a * p + b) * 256 + r;
    assert n == a * (256 * p) + (b * 256 + r);
    assert 0 <= b * 256 + r < 256 * p;
    ModUnique(n, 256 * p, a, b * 256 + r);
  }

  lemma MulBound(b: int, m: int)
    requires m >= 0
    ensures b >= 1 ==> b * m >= m
    ensures b <= -1 ==> b * m <= -m
  {}

  lemma ModUnique(n: nat, m: nat, a: int, r: int)
    requires m > 0 && n == a * m + r && 0 <= r < m
    ensures n % m == r
  {
    var b := n / m - a;
    assert n % m == r - b * m;
    MulBound(b, m);
  }

  lemma DivDiv(n: nat, a: nat, b: nat)
    requires a > 0 && b > 0
    ensures n / a / b == n / (a * b)
  {
    var q, r := n / a / b, (n / a) % b;
    assert n == (q * b + r) * a + n % a;
    assert n == q * (a * b) + (r * a + n % a);
    MulBound(b - 1 - r, a);
    assert 0 <= r * a + n % a < a * b;
    DivUnique(n, a * b, q, r * a + n % a);
  }

  lemma DivUnique(n: nat, m: nat, q: int, r: int)
    requires m > 0 && n == q * m + r && 0 <= r < m
    ensures n / m == q
  {
    var b := n / m - q;
    assert n % m == r - b * m;
    MulBound(b, m);
  }

  /** Each byte of an encoded integer, by position: the first is the most significant. */
  lemma {:induction false} ByteAt(n: nat, w: nat, i: nat)
    requires i < w
    ensures BigEndian(n, w)[i] == n / Pow256(w - 1 - i) % 256
    decreases w
  {
    if i < w - 1 {
      ByteAt(n / 256, w - 1, i);
      DivDiv(n, 256, Pow256(w - 2 - i));
    }
  }

  /** Four bytes, the most significant first. */
  function Four(n: nat): (s: seq<Byte>)
    ensures |s| == 4
  {
    [n / 0x100_0000 % 256, n / 0x1_0000 % 256, n / 0x100 % 256, n % 256]
  }

  function Two(n: nat): (s: seq<Byte>)
    ensures |s| == 2
  {
    [n / 0x100 % 256, n % 256]
  }

  lemma FourIs(n: nat)
    ensures BigEndian(n, 4) == Four(n)
  {
    PowWidths();
    assert Pow256(3) == 256 * Pow256(2) && Pow256(1) == 256 && Pow256(0) == 1;
    ByteAt(n, 4, 0);
    ByteAt(n, 4, 1);
    ByteAt(n, 4, 2);
    ByteAt(n, 4, 3);
  }

  lemma TwoIs(n: nat)
    ensures BigEndian(n, 2) == Two(n)
  {
    assert Pow256(1) == 256 && Pow256(0) == 1;
    ByteAt(n, 2, 0);
    ByteAt(n, 2, 1);
  }

  /** Re-encoding what was read gives back the bytes. */
  lemma {:induction false} WriteBack(s: seq<Byte>)
    ensures BigEndian(FromBigEndian(s), |s|) == s
  {
    if s != [] {
      var t, n := s[..|s| - 1], FromBigEndian(s);
      assert n / 256 == FromBigEndian(t) && n % 256 == s[|s| - 1];
      WriteBack(t);
      assert s == t + [s[|s| - 1]];
    }
  }

  lemma PowWidths()
    ensures Pow256(2) == 0x1_0000 && Pow256(4) == 0x1_0000_0000 && Pow256(8) == 0x1_0000_0000_0000_0000
  {
    assert Pow256(4) == 256 * (256 * Pow256(2));
    assert Pow256(8) == 256 * (256 * (256 * (256 * Pow256(4))));
  }

  /** An integer that fits its width survives the wire. */
  lemma RoundTrip(n: nat, w: nat)
    requires n < Pow256(w)
    ensures FromBigEndian(BigEndian(n, w)) == n
  {
    ReadBack(n, w);
    ModUnique(n, Pow256(w), 0, n);
  }

  function Reversed(s: seq<Byte>): (r: seq<Byte>)
    ensures |r| == |s| && forall i :: 0 <= i < |s| ==> r[i] == s[|s| - 1 - i]
  {
    if s == [] then [] else Reversed(s[1..]) + [s[0]]
  }

  lemma ReversedTwice(s: seq<Byte>)
    ensures Reversed(Reversed(s)) == s
  {}

  /** The memory image of a `w`-byte integer on a host of either byte order. */
  function HostImage(n: nat, w: nat, bigEndianHost: bool): (s: seq<Byte>)
    ensures |s| == w
  {
    if bigEndianHost then BigEndian(n, w) else Reversed(BigEndian(n, w))
  }

  /** A big-endian host keeps the most significant byte first, the other kind the least significant. */
  lemma ImageAt(n: nat, w: nat, i: nat)
    requires i < w
    ensures HostImage(n, w, true)[i] == n / Pow256(w - 1 - i) % 256
    ensures HostImage(n, w, false)[i] == n / Pow256(i) % 256
  {
    ByteAt(n, w, i);
    ByteAt(n, w, w - 1 - i);
  }

  /** `HToN` / `NToH`: swap the bytes unless the host is big-endian already. */
  function HostToNet(n: nat, w: nat, bigEndianHost: bool): nat {
    if bigEndianHost then n else FromBigEndian(Reversed(BigEndian(n, w)))
  }

  /** Swapping and then copying the memory image is big-endian on every host. */
  lemma HostOrderIrrelevant(n: nat, w: nat, bigEndianHost: bool)
    ensures HostImage(HostToNet(n, w, bigEndianHost), w, bigEndianHost) == BigEndian(n, w)
  {
    if !bigEndianHost {
      WriteBack(Reversed(BigEndian(n, w)));
      ReversedTwice(BigEndian(n, w));
    }
  }
}
