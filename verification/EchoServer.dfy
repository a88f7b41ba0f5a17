/** The default message handler, seen by its client: payloads go out in frames, and come back in
    frames with " OK!" behind them. */
module EchoServer {
  import opened Bytes
  import opened Streaming
  import opened Connection
  import opened ConnectionProofs

  /** A payload behind its length. */
  function FrameOf(p: seq<Byte>): seq<Byte> {
    Four(|p|) + p
  }

  function FramesOf(ps: seq<seq<Byte>>): (r: seq<seq<Byte>>)
    ensures |r| == |ps|
  {
    seq(|ps|, i requires 0 <= i < |ps| => FrameOf(ps[i]))
  }

  /** What the client expects back: each payload with " OK!" behind it. */
  function Echoes(ps: seq<seq<Byte>>): (r: seq<seq<Byte>>)
    ensures |r| == |ps|
  {
    seq(|ps|, i requires 0 <= i < |ps| => ps[i] + [32, 79, 75, 33])
  }

  function LengthAt(s: seq<Byte>): nat
    requires |s| >= 4
  {
    s[0] as nat * 0x100_0000 + s[1] as nat * 0x1_0000 + s[2] as nat * 0x100 + s[3] as nat
  }

  /** How a client takes a stream apart, with no limit of its own. */
  function Unframe(s: seq<Byte>): Option<seq<seq<Byte>>>
    decreases |s|
  {
    if s == [] then Some([])
    else if |s| < 4 || |s| < 4 + LengthAt(s) then None
    else
      var n := 4 + LengthAt(s);
      match Unframe(s[n..])
      case None => None
      case Some(rest) => Some([s[4..n]] + rest)
  }

  ghost predicate Short(ps: seq<seq<Byte>>, limit: nat) {
    forall i :: 0 <= i < |ps| ==> |ps[i]| <= limit
  }

  lemma LengthIs(n: nat, t: seq<Byte>)
    requires n < 0x1_0000_0000
    ensures LengthAt(Four(n) + t) == n && FromBigEndian((Four(n) + t)[..4]) == n
  {
    PowWidths();
    FourIs(n);
    RoundTrip(n, 4);
    assert (Four(n) + t)[..4] == Four(n);
    Digits(n);
  }

  lemma Digits(n: nat)
    requires n < 0x1_0000_0000
    ensures n == (n / 0x100_0000 % 256) * 0x100_0000 + (n / 0x1_0000 % 256) * 0x1_0000 + (n / 0x100 % 256) * 0x100
                 + n % 256
  {
    DivDiv(n, 0x100, 0x100);
    DivDiv(n, 0x1_0000, 0x100);
    assert n / 0x100_0000 < 256;
  }

  // ---- the frames the handler takes ----

  /** A payload of up to 100000 bytes is a frame once it is all there, and not before; a longer one is
      refused as soon as its length is. */
  lemma FrameExactly(n: nat, t: seq<Byte>)
    requires n < 0x1_0000_0000
    ensures forall k :: 0 <= k < 4 ==> FrameAt((Four(n) + t)[..k]).NeedMore?
    ensures FrameAt(Four(n) + t) == if n > 100000 then Reject else if |t| >= n then Frame(n + 4) else NeedMore
  {
    LengthIs(n, t);
  }

  // ---- the replies it gives ----

  /** The reply to a frame: the length of what follows, the payload, " OK!". */
  lemma ReplyExactly(frame: seq<Byte>)
    requires |frame| >= 4
    ensures Reply(frame) == Four(|frame|) + frame[4..] + [32, 79, 75, 33]
    ensures FromBigEndian(Reply(frame)[..4]) == (|Reply(frame)| - 4) % 0x1_0000_0000
  {
    FourIs(|frame|);
    PowWidths();
    ReadBack(|frame|, 4);
    assert Reply(frame)[..4] == BigEndian(|frame|, 4);
  }

  lemma ReplyIsEcho(p: seq<Byte>)
    ensures Reply(FrameOf(p)) == FrameOf(p + [32, 79, 75, 33])
  {
    ReplyExactly(FrameOf(p));
    assert FrameOf(p)[4..] == p;
    Assoc(Four(|p| + 4), p, [32, 79, 75, 33]);
  }

  lemma RepliesAreEchoes(ps: seq<seq<Byte>>)
    ensures Framed(FramesOf(ps)) && Replies(FramesOf(ps)) == FramesOf(Echoes(ps))
  {
    assert Framed(FramesOf(ps));
    forall i | 0 <= i < |ps| ensures Replies(FramesOf(ps))[i] == FramesOf(Echoes(ps))[i] {
      ReplyIsEcho(ps[i]);
    }
  }

  // ---- both ends ----

  lemma {:induction false} ServerParses(ps: seq<seq<Byte>>)
    requires Short(ps, 100000)
    ensures Scan(Flatten(FramesOf(ps))) == Parsed(FramesOf(ps), [], false)
    decreases |ps|
  {
    FrameAtStable();
    if ps != [] {
      var p, more := ps[0], ps[1..];
      assert FramesOf(ps) == [FrameOf(p)] + FramesOf(more);
      FlattenCons(FrameOf(p), FramesOf(more));
      ServerParses(more);
      FirstFrame(p, Flatten(FramesOf(more)));
    }
  }

  lemma FirstFrame(p: seq<Byte>, t: seq<Byte>)
    requires |p| <= 100000
    ensures Scan(FrameOf(p) + t) == Prepend(FrameOf(p), Scan(t))
  {
    FrameAtStable();
    Assoc(Four(|p|), p, t);
    FrameExactly(|p|, p + t);
    var n, s := |p| + 4, FrameOf(p) + t;
    assert s[..n] == FrameOf(p) && s[n..] == t;
  }

  lemma {:induction false} ClientParses(ps: seq<seq<Byte>>)
    requires Short(ps, 0xffff_ffff)
    ensures Unframe(Flatten(FramesOf(ps))) == Some(ps)
    decreases |ps|
  {
    if ps != [] {
      var p, more := ps[0], ps[1..];
      assert FramesOf(ps) == [FrameOf(p)] + FramesOf(more);
      FlattenCons(FrameOf(p), FramesOf(more));
      ClientParses(more);
      var t, n := Flatten(FramesOf(more)), |p| + 4;
      var s := FrameOf(p) + t;
      Assoc(Four(|p|), p, t);
      LengthIs(|p|, p + t);
      assert s[4..n] == p && s[n..] == t;
      assert ps == [p] + more;
    }
  }

  /** From payloads to echoes: whatever pieces the frames of a list of payloads arrive in and however
      the replies are cut short, the client of a connection without I/O errors takes from the bytes
      sent, and those still waiting, each payload with " OK!" behind it, in order. */
  lemma EchoesAnswered(ps: seq<seq<Byte>>, cs: seq<Call>)
    requires Short(ps, 100000) && (forall i :: 0 <= i < |cs| ==> Benign(cs[i]))
    requires Flatten(Arrived(cs)) == Flatten(FramesOf(ps))
    ensures var t := ExecAll(Fresh(true), cs);
            t.status == Connecting && t.rbuf == [] && Unframe(t.sent + t.wbuf) == Some(Echoes(ps))
  {
    ChunkingIndependence(cs);
    ServerParses(ps);
    RepliesAreEchoes(ps);
    ClientParses(Echoes(ps));
  }
}
