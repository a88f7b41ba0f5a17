/** Reassembling frames from a byte stream that arrives in arbitrary pieces. */
module Streaming {
  import opened Bytes

  /** What a frame recogniser says about the bytes at the front of a buffer. */
  datatype Verdict = NeedMore | Reject | Frame(size: nat)

  type Framer = seq<Byte> -> Verdict

  /** A recogniser whose decisions are about a prefix: more bytes never change one it has made. */
  ghost predicate Stable(f: Framer) {
    && (forall s :: SizedAt(f, s))
    && (forall s, t :: StableAt(f, s, t))
  }

  predicate SizedAt(f: Framer, s: seq<Byte>) {
    f(s).Frame? ==> 0 < f(s).size <= |s|
  }

  predicate StableAt(f: Framer, s: seq<Byte>, t: seq<Byte>) {
    !f(s).NeedMore? ==> f(s + t) == f(s)
  }

  /** The frames at the front of a stream, the bytes after them, and whether those were refused. */
  datatype Parsed = Parsed(frames: seq<seq<Byte>>, rest: seq<Byte>, rejected: bool)

  /** The one-shot parse of a whole stream. */
  ghost function Parse(f: Framer, s: seq<Byte>): Parsed
    requires Stable(f)
    decreases |s|
  {
    assert SizedAt(f, s);
    match f(s)
    case NeedMore => Parsed([], s, false)
    case Reject => Parsed([], s, true)
    case Frame(n) => Prepend(s[..n], Parse(f, s[n..]))
  }

  ghost function Prepend(frame: seq<Byte>, p: Parsed): Parsed {
    p.(frames := [frame] + p.frames)
  }

  /** Parsing loses no byte. */
  lemma {:induction false} ParseConserves(f: Framer, s: seq<Byte>)
    requires Stable(f)
    ensures Flatten(Parse(f, s).frames) + Parse(f, s).rest == s
    decreases |s|
  {
    assert SizedAt(f, s);
    if f(s).Frame? {
      var n := f(s).size;
      var p := Parse(f, s[n..]);
      ParseConserves(f, s[n..]);
      FlattenCons(s[..n], p.frames);
      SplitAt(s, n);
      Assoc(s[..n], Flatten(p.frames), p.rest);
    }
  }

  /** On the rest of a parse the recogniser is refusing, or waiting. */
  lemma {:induction false} ParseStops(f: Framer, s: seq<Byte>)
    requires Stable(f)
    ensures var p := Parse(f, s);
            if p.rejected then f(p.rest).Reject? else f(p.rest).NeedMore?
    decreases |s|
  {
    assert SizedAt(f, s);
    if f(s).Frame? { ParseStops(f, s[f(s).size..]); }
  }

  /** A receiver: unconsumed bytes, frames taken so far, and whether it has stopped listening. */
  datatype Session = Session(pending: seq<Byte>, frames: seq<seq<Byte>>, closed: bool)

  ghost function Feed(f: Framer, st: Session, chunk: seq<Byte>): Session
    requires Stable(f)
  {
    if st.closed then st
    else
      var p := Parse(f, st.pending + chunk);
      Session(p.rest, st.frames + p.frames, p.rejected)
  }

  ghost function FeedAll(f: Framer, st: Session, chunks: seq<seq<Byte>>): Session
    requires Stable(f)
    decreases chunks
  {
    if chunks == [] then st else FeedAll(f, Feed(f, st, chunks[0]), chunks[1..])
  }

  /** Continue an interrupted parse with the bytes `b` that came later. */
  ghost function Resume(f: Framer, p: Parsed, b: seq<Byte>): Parsed
    requires Stable(f)
  {
    if p.rejected then p.(rest := p.rest + b)
    else
      var r := Parse(f, p.rest + b);
      r.(frames := p.frames + r.frames)
  }

  lemma PrependResumes(f: Framer, frame: seq<Byte>, p: Parsed, b: seq<Byte>)
    requires Stable(f)
    ensures Resume(f, Prepend(frame, p), b) == Prepend(frame, Resume(f, p, b))
  {
    if !p.rejected {
      var r := Parse(f, p.rest + b);
      assert [frame] + (p.frames + r.frames) == [frame] + p.frames + r.frames;
    }
  }

  /** Parsing may stop anywhere and resume with the leftover bytes. */
  lemma {:induction false} ParseSplits(f: Framer, a: seq<Byte>, b: seq<Byte>)
    requires Stable(f)
    ensures Parse(f, a + b) == Resume(f, Parse(f, a), b)
    decreases |a|
  {
    assert SizedAt(f, a) && StableAt(f, a, b);
    match f(a)
    case NeedMore =>
      var r := Parse(f, a + b);
      assert [] + r.frames == r.frames;
    case Reject =>
    case Frame(n) =>
      assert (a + b)[n..] == a[n..] + b && (a + b)[..n] == a[..n];
      ParseSplits(f, a[n..], b);
      PrependResumes(f, a[..n], Parse(f, a[n..]), b);
  }

  lemma {:induction false} ClosedStays(f: Framer, st: Session, chunks: seq<seq<Byte>>)
    requires Stable(f) && st.closed
    ensures FeedAll(f, st, chunks) == st
    decreases chunks
  {
    if chunks != [] { ClosedStays(f, st, chunks[1..]); }
  }

  /** A receiver agrees with a parse of everything it has been given since `p`. */
  ghost predicate Agrees(e: Session, before: seq<seq<Byte>>, p: Parsed) {
    && e.frames == before + p.frames
    && e.closed == p.rejected
    && (if p.rejected then e.pending <= p.rest else e.pending == p.rest)
  }

  lemma {:induction false} FeedAllParses(f: Framer, st: Session, chunks: seq<seq<Byte>>)
    requires Stable(f) && !st.closed && f(st.pending).NeedMore?
    ensures Agrees(FeedAll(f, st, chunks), st.frames, Parse(f, st.pending + Flatten(chunks)))
    decreases chunks
  {
    if chunks == [] {
      assert st.pending + Flatten(chunks) == st.pending;
      assert st.frames + [] == st.frames;
    } else {
      var first, more := st.pending + chunks[0], Flatten(chunks[1..]);
      var p, next := Parse(f, first), Feed(f, st, chunks[0]);
      Assoc(st.pending, chunks[0], more);
      ParseSplits(f, first, more);
      ParseStops(f, first);
      if next.closed {
        ClosedStays(f, next, chunks[1..]);
      } else {
        FeedAllParses(f, next, chunks[1..]);
        var q := Parse(f, next.pending + more);
        Assoc(st.frames, p.frames, q.frames);
      }
    }
  }

  /** However a stream is cut, a receiver takes the frames of the one-shot parse and stops at the
      same one; while it listens, it holds exactly the same leftover bytes. */
  lemma Chunking(f: Framer, chunks: seq<seq<Byte>>)
    requires Stable(f) && f([]).NeedMore?
    ensures Agrees(FeedAll(f, Session([], [], false), chunks), [], Parse(f, Flatten(chunks)))
  {
    FeedAllParses(f, Session([], [], false), chunks);
    assert [] + Flatten(chunks) == Flatten(chunks);
  }
}
