/** The receive loop of src/kv/kvserver.cpp over its injected predicates, and what the default
    predicates of src/kv/kvservice.cpp admit. */
module KvReceive {
  import opened Bytes
  import opened Streaming
  import opened Buffer
  import opened KvCodec
  import opened KvFlow
  import opened KvService

  /** How many bytes a body check takes off the buffer, and the packet it makes of them. */
  datatype BodyVerdict = BodyVerdict(consumed: nat, packet: Option<Packet>)

  /** The four injected predicates. The last is asked about the packet and what is left of the buffer. */
  datatype Predicates = Predicates(
    headBad: seq<Byte> -> bool,
    shouldGet: seq<Byte> -> bool,
    bodyCheck: seq<Byte> -> BodyVerdict,
    shouldEcho: (seq<Byte>, Packet) -> bool)

  /** One turn of the loop, as a recogniser of frames. */
  function VerdictOf(ps: Predicates, s: seq<Byte>): Verdict {
    if |s| < HEAD_SIZE then NeedMore
    else if ps.headBad(s) then Reject
    else if !ps.shouldGet(s) then NeedMore
    else
      var b := ps.bodyCheck(s);
      if b.packet.None? then Reject else Frame(b.consumed)
  }

  ghost function FramerOf(ps: Predicates): Framer {
    s => VerdictOf(ps, s)
  }

  /** The packet of a frame does not depend on what follows it. */
  predicate LocalAt(ps: Predicates, s: seq<Byte>) {
    var v := VerdictOf(ps, s);
    v.Frame? && v.size <= |s| ==> ps.bodyCheck(s[..v.size]).packet == ps.bodyCheck(s).packet
  }

  /** Whether a packet is to be answered does not depend on what follows it. */
  predicate EchoLocalAt(ps: Predicates, s: seq<Byte>, p: Packet) {
    ps.shouldEcho(s, p) == ps.shouldEcho([], p)
  }

  /** Injected predicates the loop can be trusted with: decisions about a prefix, progress on
      every accepted frame, and packets made of their own frame and answered for what they are. */
  ghost predicate Sound(ps: Predicates) {
    && Stable(FramerOf(ps))
    && (forall s :: LocalAt(ps, s))
    && (forall s, p :: EchoLocalAt(ps, s, p))
  }

  // ---- the loop ----

  /** `stuck`: a body check has accepted a packet without taking a byte, or taken bytes that are
      not there; the loop goes round for ever, or throws. */
  datatype Dialogue = Dialogue(buf: seq<Byte>, store: Store, out: seq<seq<Byte>>, closed: bool, stuck: bool)

  function Begin(buf: seq<Byte>, m: Store): Dialogue {
    Dialogue(buf, m, [], false, false)
  }

  ghost predicate Open(st: Dialogue) {
    !st.closed && !st.stuck
  }

  ghost function Turn(ps: Predicates, st: Dialogue): Dialogue
    requires VerdictOf(ps, st.buf).Frame? && VerdictOf(ps, st.buf).size <= |st.buf|
  {
    var b := ps.bodyCheck(st.buf);
    var rest := st.buf[b.consumed..];
    if ps.shouldEcho(rest, b.packet.value) then
      var (m, q) := Echo(st.store, b.packet.value);
      st.(buf := rest, store := m, out := st.out + [EncodePacket(q)])
    else st.(buf := rest)
  }

  ghost function Serve(ps: Predicates, st: Dialogue): Dialogue
    decreases |st.buf|
  {
    match VerdictOf(ps, st.buf)
    case NeedMore => st
    case Reject => st.(closed := true)
    case Frame(n) => if 0 < n <= |st.buf| then Serve(ps, Turn(ps, st)) else st.(stuck := true)
  }

  ghost function Receive(ps: Predicates, st: Dialogue, chunk: seq<Byte>): Dialogue {
    if Open(st) then Serve(ps, st.(buf := st.buf + chunk)) else st
  }

  ghost function ReceiveAll(ps: Predicates, st: Dialogue, chunks: seq<seq<Byte>>): Dialogue
    decreases |chunks|
  {
    if chunks == [] then st else ReceiveAll(ps, Receive(ps, st, chunks[0]), chunks[1..])
  }

  // ---- the same, frame by frame ----

  ghost predicate Packets(ps: Predicates, frames: seq<seq<Byte>>) {
    forall i :: 0 <= i < |frames| ==> ps.bodyCheck(frames[i]).packet.Some?
  }

  /** The packets of a list of frames. */
  ghost function PacketsOf(ps: Predicates, frames: seq<seq<Byte>>): seq<Packet>
    requires Packets(ps, frames)
  {
    seq(|frames|, i requires 0 <= i < |frames| => ps.bodyCheck(frames[i]).packet.value)
  }

  ghost function Flows(qs: seq<Packet>): seq<seq<Byte>> {
    seq(|qs|, i requires 0 <= i < |qs| => EncodePacket(qs[i]))
  }

  /** The packets that are to be answered. */
  ghost function Answerable(ps: Predicates, packets: seq<Packet>): seq<Packet> {
    if packets == [] then []
    else (if ps.shouldEcho([], packets[0]) then [packets[0]] else []) + Answerable(ps, packets[1..])
  }

  ghost function Answered(ps: Predicates, frames: seq<seq<Byte>>): seq<Packet>
    requires Packets(ps, frames)
  {
    Answerable(ps, PacketsOf(ps, frames))
  }

  /** The session after answering, of the frames of a parse, those that are to be answered. */
  ghost predicate Answers(ps: Predicates, st: Dialogue, p: Parsed, e: Dialogue) {
    && Packets(ps, p.frames)
    && e.buf == p.rest && e.closed == p.rejected && !e.stuck
    && var (m, qs) := EchoAll(st.store, Answered(ps, p.frames));
       e.store == m && e.out == st.out + Flows(qs)
  }

  lemma FlowsCons(q: Packet, qs: seq<Packet>)
    ensures Flows([q] + qs) == [EncodePacket(q)] + Flows(qs)
  {}

  lemma PacketsCons(ps: Predicates, f: seq<Byte>, fs: seq<seq<Byte>>)
    requires ps.bodyCheck(f).packet.Some? && Packets(ps, fs)
    ensures Packets(ps, [f] + fs)
    ensures PacketsOf(ps, [f] + fs) == [ps.bodyCheck(f).packet.value] + PacketsOf(ps, fs)
  {}

  lemma AnsweredCons(ps: Predicates, f: seq<Byte>, fs: seq<seq<Byte>>)
    requires ps.bodyCheck(f).packet.Some? && Packets(ps, fs)
    ensures Packets(ps, [f] + fs)
    ensures var p := ps.bodyCheck(f).packet.value;
            Answered(ps, [f] + fs) == (if ps.shouldEcho([], p) then [p] else []) + Answered(ps, fs)
  {
    PacketsCons(ps, f, fs);
    var p := ps.bodyCheck(f).packet.value;
    assert ([p] + PacketsOf(ps, fs))[1..] == PacketsOf(ps, fs);
  }

  /** A turn answers its own frame, and the rest follows. */
  lemma TurnAnswers(ps: Predicates, st: Dialogue, n: nat, p: Parsed, e: Dialogue)
    requires Sound(ps) && VerdictOf(ps, st.buf) == Frame(n) && 0 < n <= |st.buf|
    requires Answers(ps, Turn(ps, st), p, e)
    ensures Answers(ps, st, Prepend(st.buf[..n], p), e)
  {
    assert LocalAt(ps, st.buf);
    var pk := ps.bodyCheck(st.buf).packet.value;
    assert EchoLocalAt(ps, st.buf[n..], pk);
    AnsweredCons(ps, st.buf[..n], p.frames);
    var more := Answered(ps, p.frames);
    if ps.shouldEcho([], pk) {
      EchoCons(st.store, pk, more);
      var (m, q) := Echo(st.store, pk);
      var (m2, qs) := EchoAll(m, more);
      FlowsCons(q, qs);
      Assoc(st.out, [EncodePacket(q)], Flows(qs));
    } else {
      assert [] + more == more;
    }
  }

  /** The loop stops on every buffer, having taken whole frames off it and nothing else, and
      answered those of them that are to be answered. */
  lemma {:induction false} ServeParses(ps: Predicates, st: Dialogue)
    requires Sound(ps) && Open(st)
    ensures Answers(ps, st, Parse(FramerOf(ps), st.buf), Serve(ps, st))
    decreases |st.buf|
  {
    var f := FramerOf(ps);
    assert SizedAt(f, st.buf);
    match VerdictOf(ps, st.buf)
    case NeedMore => assert st.out + Flows([]) == st.out;
    case Reject => assert st.out + Flows([]) == st.out;
    case Frame(n) =>
      ServeParses(ps, Turn(ps, st));
      TurnAnswers(ps, st, n, Parse(f, st.buf[n..]), Serve(ps, st));
  }

  lemma EchoCons(m: Store, p: Packet, ps: seq<Packet>)
    ensures var (m1, q) := Echo(m, p);
            var (m2, qs) := EchoAll(m1, ps);
            EchoAll(m, [p] + ps) == (m2, [q] + qs)
  {
    assert ([p] + ps)[1..] == ps;
  }

  lemma {:induction false} EchoAppend(m: Store, a: seq<Packet>, b: seq<Packet>)
    ensures var (m1, qs) := EchoAll(m, a);
            var (m2, rs) := EchoAll(m1, b);
            EchoAll(m, a + b) == (m2, qs + rs)
    decreases |a|
  {
    if a == [] {
      assert a + b == b;
      var (m2, rs) := EchoAll(m, b);
      assert [] + rs == rs;
    } else {
      var (m0, q) := Echo(m, a[0]);
      EchoAppend(m0, a[1..], b);
      assert a + b == [a[0]] + (a[1..] + b);
      EchoCons(m, a[0], a[1..] + b);
      var (m1, qs) := EchoAll(m0, a[1..]);
      var (m2, rs) := EchoAll(m1, b);
      Assoc([q], qs, rs);
    }
  }

  lemma {:induction false} AnswerableAppend(ps: Predicates, a: seq<Packet>, b: seq<Packet>)
    ensures Answerable(ps, a + b) == Answerable(ps, a) + Answerable(ps, b)
    decreases |a|
  {
    if a == [] {
      assert a + b == b;
    } else {
      assert (a + b)[1..] == a[1..] + b;
      AnswerableAppend(ps, a[1..], b);
      Assoc(if ps.shouldEcho([], a[0]) then [a[0]] else [], Answerable(ps, a[1..]), Answerable(ps, b));
    }
  }

  /** Two sessions a client cannot tell apart: same replies, same store, both open or both closed. */
  ghost predicate Alike(a: Dialogue, b: Dialogue) {
    && a.out == b.out && a.store == b.store && a.closed == b.closed && a.stuck == b.stuck
    && (!a.closed ==> a.buf == b.buf)
  }

  lemma ServeSplits(ps: Predicates, st: Dialogue, b: seq<Byte>)
    requires Sound(ps) && Open(st)
    ensures Alike(Serve(ps, st.(buf := st.buf + b)), Receive(ps, Serve(ps, st), b))
  {
    var f := FramerOf(ps);
    var mid := Serve(ps, st);
    var p := Parse(f, st.buf);
    ServeParses(ps, st);
    ServeParses(ps, st.(buf := st.buf + b));
    ParseSplits(f, st.buf, b);
    if !p.rejected {
      ServeParses(ps, mid.(buf := mid.buf + b));
      var r := Parse(f, p.rest + b);
      PacketsAppend(ps, p.frames, r.frames);
      AnswerableAppend(ps, PacketsOf(ps, p.frames), PacketsOf(ps, r.frames));
      EchoAppend(st.store, Answered(ps, p.frames), Answered(ps, r.frames));
      var (m1, qs) := EchoAll(st.store, Answered(ps, p.frames));
      var (m2, rs) := EchoAll(m1, Answered(ps, r.frames));
      FlowsAppend(qs, rs);
      Assoc(st.out, Flows(qs), Flows(rs));
    }
  }

  lemma PacketsAppend(ps: Predicates, a: seq<seq<Byte>>, b: seq<seq<Byte>>)
    requires Packets(ps, a) && Packets(ps, b)
    ensures Packets(ps, a + b) && PacketsOf(ps, a + b) == PacketsOf(ps, a) + PacketsOf(ps, b)
  {}

  lemma FlowsAppend(a: seq<Packet>, b: seq<Packet>)
    ensures Flows(a + b) == Flows(a) + Flows(b)
  {}

  /** However the bytes are cut into reads, the client sees the replies, and the store the changes,
      of the whole stream read at once. */
  lemma {:induction false} SplittingIrrelevant(ps: Predicates, st: Dialogue, chunks: seq<seq<Byte>>)
    requires Sound(ps) && Open(st) && Serve(ps, st) == st
    ensures Alike(ReceiveAll(ps, st, chunks), Receive(ps, st, Flatten(chunks)))
    decreases |chunks|
  {
    if chunks == [] {
      assert st.buf + [] == st.buf;
    } else {
      var c, more := chunks[0], Flatten(chunks[1..]);
      var mid := Receive(ps, st, c);
      Assoc(st.buf, c, more);
      ServeSplits(ps, st.(buf := st.buf + c), more);
      if !Open(mid) {
        StaysClosed(ps, mid, chunks[1..]);
      } else {
        ServeIdle(ps, st.(buf := st.buf + c));
        SplittingIrrelevant(ps, mid, chunks[1..]);
      }
    }
  }

  lemma {:induction false} StaysClosed(ps: Predicates, st: Dialogue, chunks: seq<seq<Byte>>)
    requires !Open(st)
    ensures ReceiveAll(ps, st, chunks) == st
    decreases |chunks|
  {
    if chunks != [] { StaysClosed(ps, st, chunks[1..]); }
  }

  /** A session the loop has left waiting has nothing more to do. */
  lemma {:induction false} ServeIdle(ps: Predicates, st: Dialogue)
    requires Open(st)
    ensures Open(Serve(ps, st)) ==> Serve(ps, Serve(ps, st)) == Serve(ps, st)
    decreases |st.buf|
  {
    var v := VerdictOf(ps, st.buf);
    if v.Frame? && 0 < v.size <= |st.buf| { ServeIdle(ps, Turn(ps, st)); }
  }

  ghost predicate EndOf(left: seq<Byte>, s: seq<Byte>) {
    |left| <= |s| && left == s[|s| - |left|..]
  }

  lemma EndOfRest(left: seq<Byte>, s: seq<Byte>, n: nat)
    requires n <= |s| && EndOf(left, s[n..])
    ensures EndOf(left, s)
  {}

  /** The loop leaves an end of the buffer. */
  lemma {:induction false} ServeSuffix(ps: Predicates, st: Dialogue)
    ensures EndOf(Serve(ps, st).buf, st.buf)
    decreases |st.buf|
  {
    var v := VerdictOf(ps, st.buf);
    if v.Frame? && 0 < v.size <= |st.buf| {
      ServeSuffix(ps, Turn(ps, st));
      EndOfRest(Serve(ps, st).buf, st.buf, v.size);
    }
  }

  /** What it does does not depend on the replies given before. */
  lemma {:induction false} ServeAfresh(ps: Predicates, st: Dialogue, out: seq<seq<Byte>>)
    ensures Serve(ps, st.(out := out + st.out)) == Serve(ps, st).(out := out + Serve(ps, st).out)
    decreases |st.buf|
  {
    var v := VerdictOf(ps, st.buf);
    if v.Frame? && 0 < v.size <= |st.buf| {
      var t := Turn(ps, st);
      ServeAfresh(ps, t, out);
      if t.out != st.out { Assoc(out, st.out, t.out[|st.out|..]); }
      assert Turn(ps, st.(out := out + st.out)) == t.(out := out + t.out);
    }
  }

  lemma ReceiveAfresh(ps: Predicates, st: Dialogue, chunk: seq<Byte>)
    requires Open(st)
    ensures var e := Serve(ps, Begin(st.buf + chunk, st.store));
            Receive(ps, st, chunk) == e.(out := st.out + e.out)
  {
    var all := Begin(st.buf + chunk, st.store);
    ServeAfresh(ps, all, st.out);
    assert st.out + all.out == st.out;
  }

  // ---- the default predicates ----

  function DefaultHeadBad(s: seq<Byte>): bool {
    if |s| < HEAD_SIZE then false
    else match DecodePacket(s[..HEAD_SIZE])
      case None => true
      case Some(p) =>
        || p.head.magic != MAGIC || p.head.version != VERSION || p.head.msgType != REQUEST
        || p.head.bodyLength > MAX_BODY
  }

  function DefaultShouldGet(s: seq<Byte>): bool {
    if |s| < HEAD_SIZE then false
    else match DecodePacket(s[..HEAD_SIZE])
      case None => false
      case Some(p) => |s| >= HEAD_SIZE + p.head.bodyLength
  }

  predicate Supported(opcode: U16) {
    opcode == PING || opcode == PUT || opcode == GET || opcode == DEL
  }

  /** A request the service cannot carry out is marked with the status to answer. */
  function Marked(p: Packet): Packet {
    if !Supported(p.head.opcode) then p.(head := p.head.(status := UNSUPPORTED_OPCODE))
    else if DecodeRequest(p).None? then p.(head := p.head.(status := BAD_REQUEST))
    else p
  }

  function DefaultBodyCheck(s: seq<Byte>): BodyVerdict {
    if |s| < HEAD_SIZE then BodyVerdict(0, None)
    else match DecodePacket(s[..HEAD_SIZE])
      case None => BodyVerdict(0, None)
      case Some(h) =>
        var total := HEAD_SIZE + h.head.bodyLength;
        if |s| < total then BodyVerdict(0, None)
        else match DecodePacket(s[..total])
          case None => BodyVerdict(total, None)
          case Some(p) => BodyVerdict(total, Some(Marked(p)))
  }

  const DEFAULTS: Predicates := Predicates(DefaultHeadBad, DefaultShouldGet, DefaultBodyCheck, (_, _) => true)

  /** The headers the default checks let through. */
  predicate Admitted(h: Head) {
    h.magic == MAGIC && h.version == VERSION && h.msgType == REQUEST && h.bodyLength == 0
  }

  lemma HeadOnly(s: seq<Byte>)
    requires |s| >= HEAD_SIZE
    ensures DecodeHead(s[..HEAD_SIZE]) == DecodeHead(s)
    ensures DecodePacket(s[..HEAD_SIZE])
         == if DecodeHead(s).bodyLength == 0 then Some(Packet(DecodeHead(s), [])) else None
  {
    var t := s[..HEAD_SIZE];
    assert t[0..4] == s[0..4] && t[4..6] == s[4..6] && t[6..8] == s[6..8] && t[8..10] == s[8..10];
    assert t[10..12] == s[10..12] && t[12..16] == s[12..16] && t[16..24] == s[16..24];
    assert t[HEAD_SIZE..HEAD_SIZE] == [];
  }

  /** The default header check passes exactly the headers that announce an empty body: it decodes
      the header as a whole packet, and a body it has not been given makes that fail. */
  lemma HeadCheckExactly(s: seq<Byte>)
    requires |s| >= 24
    ensures var h := DecodeHead(s);
            !DefaultHeadBad(s) <==> h.magic == 0x0616_1027 && h.version == 1 && h.msgType == 1 && h.bodyLength == 0
  {
    HeadOnly(s);
  }

  lemma DefaultVerdict(s: seq<Byte>)
    ensures VerdictOf(DEFAULTS, s)
            == if |s| < HEAD_SIZE then NeedMore else if Admitted(DecodeHead(s)) then Frame(HEAD_SIZE) else Reject
    ensures |s| >= HEAD_SIZE && Admitted(DecodeHead(s)) ==>
              DefaultBodyCheck(s).packet == Some(Marked(Packet(DecodeHead(s), [])))
  {
    if |s| >= HEAD_SIZE { HeadOnly(s); }
  }

  lemma DefaultsSound()
    ensures Sound(DEFAULTS)
  {
    var f := FramerOf(DEFAULTS);
    forall s ensures SizedAt(f, s) { DefaultVerdict(s); }
    forall s: seq<Byte>, t: seq<Byte> ensures StableAt(f, s, t) {
      DefaultVerdict(s);
      DefaultVerdict(s + t);
      if |s| >= HEAD_SIZE {
        HeadOnly(s);
        HeadOnly(s + t);
        assert (s + t)[..HEAD_SIZE] == s[..HEAD_SIZE];
      }
    }
    assert forall s, p :: EchoLocalAt(DEFAULTS, s, p);
    forall s ensures LocalAt(DEFAULTS, s) {
      DefaultVerdict(s);
      if |s| >= HEAD_SIZE {
        HeadOnly(s);
        DefaultVerdict(s[..HEAD_SIZE]);
      }
    }
  }

  /** With the default checks a well-formed request, under any request id and whatever follows it,
      is served exactly when it is a ping; any other closes the connection unanswered. */
  lemma OnlyPingsServed(r: Request, id: U64, t: seq<Byte>, m: Store)
    requires Encodable(r) && EncodeRequest(r).Some?
    ensures var p := EncodeRequest(r).value;
            var flow := EncodePacket(p.(head := p.head.(requestId := id))) + t;
            && (VerdictOf(DEFAULTS, flow) == if r.opcode == PING then Frame(HEAD_SIZE) else Reject)
            && (r.opcode != PING ==> Serve(DEFAULTS, Begin(flow, m)) == Begin(flow, m).(closed := true))
  {
    EncodesExactly(r);
    var p := EncodeRequest(r).value;
    var h := p.head.(requestId := id);
    var flow := EncodePacket(Packet(h, p.body)) + t;
    Assoc(EncodeHead(h), p.body, t);
    HeadRoundTrip(h, p.body + t);
    DefaultVerdict(flow);
  }

  /** An admitted header is answered under its own opcode and id: a ping with the status it came
      with, another known opcode as malformed, and the rest as unsupported. */
  lemma DefaultReply(h: Head, m: Store)
    requires Admitted(h) && Stored(m)
    ensures Echo(m, Marked(Packet(h, []))).0 == m
    ensures var status := if h.opcode == 1 then h.status else if 2 <= h.opcode <= 4 then 2 else 4;
            ReadsBack(Echo(m, Marked(Packet(h, []))).1, Response(status, [], []), h.opcode, h.requestId)
  {
    var p := Packet(h, []);
    EchoIsMap(m, Marked(p));
    assert DecodeRequest(p).Some? <==> h.opcode == PING;
  }

  lemma TurnKeepsStore(st: Dialogue)
    requires VerdictOf(DEFAULTS, st.buf) == Frame(HEAD_SIZE)
    ensures HEAD_SIZE <= |st.buf| && Turn(DEFAULTS, st).store == st.store
  {
    DefaultVerdict(st.buf);
    var p := Packet(DecodeHead(st.buf), []);
    assert DecodeRequest(p).Some? ==> p.head.opcode == PING;
    assert CommandOf(Marked(p)).Ping? || CommandOf(Marked(p)).Refuse?;
    HandleIsMap(st.store, Marked(p));
  }

  lemma {:induction false} ServeKeepsStore(st: Dialogue)
    ensures Serve(DEFAULTS, st).store == st.store
    decreases |st.buf|
  {
    DefaultVerdict(st.buf);
    if VerdictOf(DEFAULTS, st.buf).Frame? {
      TurnKeepsStore(st);
      ServeKeepsStore(Turn(DEFAULTS, st));
    }
  }

  /** So behind the default checks no stream of bytes, however cut, ever changes the store. */
  lemma {:induction false} StoreUntouched(st: Dialogue, chunks: seq<seq<Byte>>)
    ensures ReceiveAll(DEFAULTS, st, chunks).store == st.store
    decreases |chunks|
  {
    if chunks != [] {
      ServeKeepsStore(st.(buf := st.buf + chunks[0]));
      StoreUntouched(Receive(DEFAULTS, st, chunks[0]), chunks[1..]);
    }
  }

  // ---- a turn as it runs ----

  /** How a turn of the loop ended: no whole request yet, to be closed, stuck, or a request taken
      and perhaps answered. */
  datatype Progress = Waits | Refused | Stuck | Took(reply: Option<seq<Byte>>)

  function Said(reply: Option<seq<Byte>>): seq<seq<Byte>> {
    if reply.Some? then [reply.value] else []
  }

  /** A turn taken from `st` to `next`, which holds the reply, if any. */
  ghost predicate Advances(ps: Predicates, st: Dialogue, next: Dialogue, r: Progress) {
    var v := VerdictOf(ps, st.buf);
    match r
    case Waits => v.NeedMore? && next == st
    case Refused => v.Reject? && next.store == st.store
    case Stuck => v.Frame? && !(0 < v.size <= |st.buf|) && next.store == st.store
    case Took(reply) => v.Frame? && 0 < v.size <= |st.buf| && Turn(ps, st) == next.(out := st.out + Said(reply))
  }

  /** One turn of the key-value handler over its buffer and the service's store. */
  method NextRequest(ps: Predicates, buffer: Buffer, kv: KvService) returns (r: Progress)
    requires buffer.Valid()
    modifies buffer, kv.store
    ensures buffer.Valid() && buffer.data == old(buffer.data)
    ensures Advances(ps, Begin(old(buffer.Contents()), old(kv.store.mp)), Begin(buffer.Contents(), kv.store.mp), r)
  {
    if buffer.Size() < HEAD_SIZE {
      return Waits;
    }
    var s := buffer.data[buffer.readPos..buffer.writePos];
    if ps.headBad(s) {
      return Refused;
    }
    if !ps.shouldGet(s) {
      return Waits;
    }
    var b := ps.bodyCheck(s);
    var took := buffer.ReadBuffer(b.consumed);
    if b.packet.None? {
      return Refused;
    }
    if b.consumed == 0 || took.None? {
      return Stuck;
    }
    if ps.shouldEcho(s[b.consumed..], b.packet.value) {
      var q := kv.ShouldEcho(b.packet.value);
      var flow := EncodePacketToFlow(q);
      return Took(Some(flow));
    }
    r := Took(None);
  }
}
