/** Checks that frame packets the way docs/kv协议.md lays them out: decide on the header, wait for the
    body it announces, decode the whole. Behind them the service does what it is for. */
module KvFraming {
  import opened Bytes
  import opened Streaming
  import opened Connection
  import opened KvCodec
  import opened KvService
  import opened KvConnection
  import KR = KvReceive

  predicate HeadOk(h: Head) {
    h.magic == MAGIC && h.version == VERSION && h.msgType == REQUEST && h.bodyLength <= MAX_BODY
  }

  function HeadBad(s: seq<Byte>): bool {
    |s| >= HEAD_SIZE && !HeadOk(DecodeHead(s))
  }

  function Complete(s: seq<Byte>): bool {
    |s| >= HEAD_SIZE && |s| >= HEAD_SIZE + DecodeHead(s).bodyLength
  }

  function TakeBody(s: seq<Byte>): KR.BodyVerdict {
    if !Complete(s) then KR.BodyVerdict(0, None)
    else
      var total := HEAD_SIZE + DecodeHead(s).bodyLength;
      match DecodePacket(s[..total])
      case None => KR.BodyVerdict(total, None)
      case Some(p) => KR.BodyVerdict(total, Some(KR.Marked(p)))
  }

  const FRAMING: KR.Predicates := KR.Predicates(HeadBad, Complete, TakeBody, (_, _) => true)

  lemma HeadOfPrefix(s: seq<Byte>, n: nat)
    requires HEAD_SIZE <= n <= |s|
    ensures DecodeHead(s[..n]) == DecodeHead(s)
  {
    KR.HeadOnly(s);
    KR.HeadOnly(s[..n]);
    assert s[..n][..HEAD_SIZE] == s[..HEAD_SIZE];
  }

  lemma PacketOfPrefix(s: seq<Byte>)
    requires Complete(s)
    ensures var h := DecodeHead(s);
            var total := HEAD_SIZE + h.bodyLength;
            DecodePacket(s[..total]) == Some(Packet(h, s[HEAD_SIZE..total])) == DecodePacket(s)
  {
    var total := HEAD_SIZE + DecodeHead(s).bodyLength;
    HeadOfPrefix(s, total);
    assert s[..total][HEAD_SIZE..total] == s[HEAD_SIZE..total];
  }

  lemma FramingVerdict(s: seq<Byte>)
    ensures KR.VerdictOf(FRAMING, s)
         == if |s| < HEAD_SIZE then NeedMore
            else if DecodeHead(s).magic != 0x0616_1027 || DecodeHead(s).version != 1 || DecodeHead(s).msgType != 1
                    || DecodeHead(s).bodyLength > 2097152 then Reject
            else if !Complete(s) then NeedMore
            else Frame(HEAD_SIZE + DecodeHead(s).bodyLength)
  {
    if Complete(s) { PacketOfPrefix(s); }
  }

  lemma FramingStable(s: seq<Byte>, t: seq<Byte>)
    ensures StableAt(KR.FramerOf(FRAMING), s, t)
  {
    FramingVerdict(s);
    FramingVerdict(s + t);
    if |s| >= HEAD_SIZE {
      HeadOfPrefix(s + t, |s|);
      assert (s + t)[..|s|] == s;
    }
  }

  lemma FramingLocal(s: seq<Byte>)
    ensures KR.LocalAt(FRAMING, s)
  {
    FramingVerdict(s);
    if Complete(s) {
      var total := HEAD_SIZE + DecodeHead(s).bodyLength;
      PacketOfPrefix(s);
      HeadOfPrefix(s, total);
      assert s[..total][..total] == s[..total];
    }
  }

  /** These checks are sound too, so all that is proved of sound ones holds behind them. */
  lemma FramingSound()
    ensures KR.Sound(FRAMING)
  {
    forall s ensures SizedAt(KR.FramerOf(FRAMING), s) { FramingVerdict(s); }
    forall s: seq<Byte>, t: seq<Byte> ensures StableAt(KR.FramerOf(FRAMING), s, t) { FramingStable(s, t); }
    forall s ensures KR.LocalAt(FRAMING, s) { FramingLocal(s); }
    assert forall s, p :: KR.EchoLocalAt(FRAMING, s, p);
  }

  // ---- requests ----

  /** A request under an id of the client's choosing. */
  datatype Asked = Asked(request: Request, id: U64)

  ghost predicate Sendable(asked: seq<Asked>) {
    forall i :: 0 <= i < |asked| ==> Encodable(asked[i].request)
  }

  function PacketOf(a: Asked): Packet
    requires Encodable(a.request)
  {
    EncodesExactly(a.request);
    var p := EncodeRequest(a.request).value;
    p.(head := p.head.(requestId := a.id))
  }

  function FlowOf(a: Asked): seq<Byte>
    requires Encodable(a.request)
  {
    EncodePacket(PacketOf(a))
  }

  function CommandFor(r: Request): Command {
    if r.opcode == PING then Ping
    else if r.opcode == PUT then Put(r.key, r.value)
    else if r.opcode == GET then Get(r.key)
    else Del(r.key)
  }

  lemma PacketAsks(a: Asked)
    requires Encodable(a.request)
    ensures var p := PacketOf(a);
            && p.head.opcode == a.request.opcode && p.head.requestId == a.id && p.head.bodyLength == |p.body|
            && HeadOk(p.head) && KR.Marked(p) == p && CommandOf(p) == CommandFor(a.request)
  {
    EncodesExactly(a.request);
    BodyBack(a.request);
  }

  /** Every request that encodes is one frame, whatever follows it, and the packet made of the frame
      is the request's own. */
  lemma RequestIsFrame(a: Asked, t: seq<Byte>)
    requires Encodable(a.request)
    ensures KR.VerdictOf(FRAMING, FlowOf(a) + t) == Frame(|FlowOf(a)|)
    ensures TakeBody(FlowOf(a) + t) == KR.BodyVerdict(|FlowOf(a)|, Some(PacketOf(a)))
  {
    var p := PacketOf(a);
    var s := FlowOf(a) + t;
    PacketAsks(a);
    PacketRoundTrip(p, t);
    Assoc(EncodeHead(p.head), p.body, t);
    HeadRoundTrip(p.head, p.body + t);
    FramingVerdict(s);
    PacketOfPrefix(s);
  }

  function FlowsOf(asked: seq<Asked>): seq<seq<Byte>>
    requires Sendable(asked)
  {
    seq(|asked|, i requires 0 <= i < |asked| => FlowOf(asked[i]))
  }

  function PacketsFor(asked: seq<Asked>): seq<Packet>
    requires Sendable(asked)
  {
    seq(|asked|, i requires 0 <= i < |asked| => PacketOf(asked[i]))
  }

  lemma FirstParses(a: Asked, t: seq<Byte>)
    requires KR.Sound(FRAMING) && Encodable(a.request)
    ensures var f := KR.FramerOf(FRAMING);
            Parse(f, FlowOf(a) + t) == Prepend(FlowOf(a), Parse(f, t))
  {
    var n, s := |FlowOf(a)|, FlowOf(a) + t;
    RequestIsFrame(a, t);
    assert s[..n] == FlowOf(a) && s[n..] == t;
  }

  lemma {:induction false} StreamParses(asked: seq<Asked>)
    requires KR.Sound(FRAMING) && Sendable(asked)
    ensures Parse(KR.FramerOf(FRAMING), Flatten(FlowsOf(asked))) == Parsed(FlowsOf(asked), [], false)
    decreases |asked|
  {
    if asked == [] {
      FramingVerdict([]);
    } else {
      var a, more := asked[0], asked[1..];
      assert FlowsOf(asked) == [FlowOf(a)] + FlowsOf(more);
      FlattenCons(FlowOf(a), FlowsOf(more));
      StreamParses(more);
      FirstParses(a, Flatten(FlowsOf(more)));
    }
  }

  lemma FramesArePackets(asked: seq<Asked>)
    requires Sendable(asked)
    ensures KR.Packets(FRAMING, FlowsOf(asked)) && KR.PacketsOf(FRAMING, FlowsOf(asked)) == PacketsFor(asked)
  {
    forall i | 0 <= i < |asked| ensures TakeBody(FlowsOf(asked)[i]).packet == Some(PacketsFor(asked)[i]) {
      RequestIsFrame(asked[i], []);
      assert FlowOf(asked[i]) + [] == FlowOf(asked[i]);
    }
  }

  lemma {:induction false} AllAnswerable(ps: seq<Packet>)
    ensures KR.Answerable(FRAMING, ps) == ps
    decreases |ps|
  {
    if ps != [] {
      AllAnswerable(ps[1..]);
      assert ps == [ps[0]] + ps[1..];
    }
  }

  /** The map after the first `i` requests. */
  function StoreAfter(m: Store, asked: seq<Asked>, i: nat): Store
    requires i <= |asked|
  {
    if i == 0 then m else After(StoreAfter(m, asked, i - 1), CommandFor(asked[i - 1].request))
  }

  lemma CommandAt(asked: seq<Asked>, i: nat)
    requires Sendable(asked) && i < |asked|
    ensures CommandOf(PacketsFor(asked)[i]) == CommandFor(asked[i].request)
  {
    PacketAsks(asked[i]);
  }

  lemma {:induction false} StoreIsMap(m: Store, asked: seq<Asked>, i: nat)
    requires Sendable(asked) && i <= |asked|
    ensures MapAfter(m, PacketsFor(asked), i) == StoreAfter(m, asked, i)
  {
    if i > 0 {
      StoreIsMap(m, asked, i - 1);
      CommandAt(asked, i - 1);
    }
  }

  /** The client reads the map's answer to its `i`-th request out of the reply. */
  ghost predicate ClientReads(m: Store, asked: seq<Asked>, i: nat, reply: seq<Byte>)
    requires i < |asked|
  {
    var q, a := DecodePacket(reply), asked[i];
    q.Some? && ReadsBack(q.value, Answer(StoreAfter(m, asked, i), CommandFor(a.request)), a.request.opcode, a.id)
  }

  /** From requests to answers: whatever pieces the encoded requests arrive in and however the replies
      are cut, the client of an errorless connection reads, for each request in turn, the answer of a
      map that has carried out those before it, and the store ends as that map. */
  lemma RequestsAnswered(m: Store, asked: seq<Asked>, vs: seq<KvConnection.Event>)
    requires Stored(m) && Sendable(asked) && (forall i :: 0 <= i < |vs| ==> Smooth(vs[i]))
    requires Flatten(Chunks(vs)) == Flatten(FlowsOf(asked))
    ensures var k := Run(FRAMING, Client(Fresh(true), m), vs);
            && k.conn.status == Connecting && k.store == StoreAfter(m, asked, |asked|)
            && k.conn.sent + k.conn.wbuf == Flatten(k.conn.accepted) && |k.conn.accepted| == |asked|
            && forall i :: 0 <= i < |asked| ==> ClientReads(m, asked, i, k.conn.accepted[i])
  {
    FramingSound();
    StreamParses(asked);
    FramesArePackets(asked);
    var ps := PacketsFor(asked);
    AllAnswerable(ps);
    forall i | 0 <= i < |vs| ensures Usual(vs[i]) { assert Smooth(vs[i]); }
    WireIsDialogue(FRAMING, m, vs);
    KR.ServeParses(FRAMING, KR.Begin(Flatten(Chunks(vs)), m));
    RepliesAreMapAnswers(FRAMING, m, vs);
    StoreIsMap(m, asked, |asked|);
    var k := Run(FRAMING, Client(Fresh(true), m), vs);
    forall i | 0 <= i < |asked| ensures ClientReads(m, asked, i, k.conn.accepted[i]) {
      assert RepliedAt(m, ps, k.conn.accepted, i);
      StoreIsMap(m, asked, i);
      PacketAsks(asked[i]);
    }
  }
}
