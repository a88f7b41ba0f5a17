/** The three layers of src/kv/protocolcodec.cpp: bytes, packets, requests and responses. */
module KvCodec {
  import opened Bytes

  const MAGIC: U32 := 0x0616_1027
  const VERSION: U16 := 1
  const REQUEST: U16 := 1
  const RESPONSE: U16 := 2

  const PING: U16 := 1
  const PUT: U16 := 2
  const GET: U16 := 3
  const DEL: U16 := 4

  const STATUS_OK: U16 := 0
  const NOT_FOUND: U16 := 1
  const BAD_REQUEST: U16 := 2
  const INTERNAL_ERROR: U16 := 3
  const UNSUPPORTED_OPCODE: U16 := 4

  const MAX_KEY: nat := 256
  const MAX_VALUE: nat := 1024 * 1024
  const MAX_BODY: nat := 2 * 1024 * 1024

  const HEAD_SIZE: nat := 24

  datatype Head = Head(
    magic: U32, version: U16, msgType: U16, opcode: U16, status: U16, bodyLength: U32, requestId: U64)

  datatype Packet = Packet(head: Head, body: seq<Byte>)

  datatype Request = Request(opcode: U16, key: seq<Byte>, value: seq<Byte>)

  /** The key is for the server's own use: no packet carries it. */
  datatype Response = Response(status: U16, key: seq<Byte>, value: seq<Byte>)

  /** `static_cast<uint32_t>` of a size. */
  function Narrow(n: nat): U32 {
    n % 0x1_0000_0000
  }

  // ---- packets ----

  function EncodeHead(h: Head): (s: seq<Byte>)
    ensures |s| == HEAD_SIZE
  {
    BigEndian(h.magic, 4) + BigEndian(h.version, 2) + BigEndian(h.msgType, 2) + BigEndian(h.opcode, 2)
    + BigEndian(h.status, 2) + BigEndian(h.bodyLength, 4) + BigEndian(h.requestId, 8)
  }

  function U16At(s: seq<Byte>, i: nat): U16
    requires i + 2 <= |s|
  {
    PowWidths();
    FromBigEndian(s[i..i + 2])
  }

  function U32At(s: seq<Byte>, i: nat): U32
    requires i + 4 <= |s|
  {
    PowWidths();
    FromBigEndian(s[i..i + 4])
  }

  function U64At(s: seq<Byte>, i: nat): U64
    requires i + 8 <= |s|
  {
    PowWidths();
    FromBigEndian(s[i..i + 8])
  }

  function DecodeHead(s: seq<Byte>): Head
    requires |s| >= HEAD_SIZE
  {
    Head(U32At(s, 0), U16At(s, 4), U16At(s, 6), U16At(s, 8), U16At(s, 10), U32At(s, 12), U64At(s, 16))
  }

  function EncodePacket(p: Packet): seq<Byte> {
    EncodeHead(p.head) + p.body
  }

  function DecodePacket(flow: seq<Byte>): Option<Packet> {
    if |flow| < HEAD_SIZE then None
    else
      var h := DecodeHead(flow);
      if h.bodyLength + HEAD_SIZE > |flow| then None
      else Some(Packet(h, flow[HEAD_SIZE..HEAD_SIZE + h.bodyLength]))
  }

  lemma FieldsRoundTrip(h: Head)
    ensures FromBigEndian(BigEndian(h.magic, 4)) == h.magic && FromBigEndian(BigEndian(h.version, 2)) == h.version
    ensures FromBigEndian(BigEndian(h.msgType, 2)) == h.msgType && FromBigEndian(BigEndian(h.opcode, 2)) == h.opcode
    ensures FromBigEndian(BigEndian(h.status, 2)) == h.status
    ensures FromBigEndian(BigEndian(h.bodyLength, 4)) == h.bodyLength
    ensures FromBigEndian(BigEndian(h.requestId, 8)) == h.requestId
  {
    PowWidths();
    RoundTrip(h.magic, 4);
    RoundTrip(h.version, 2);
    RoundTrip(h.msgType, 2);
    RoundTrip(h.opcode, 2);
    RoundTrip(h.status, 2);
    RoundTrip(h.bodyLength, 4);
    RoundTrip(h.requestId, 8);
  }

  lemma HeadSlices(h: Head, t: seq<Byte>)
    ensures var s := EncodeHead(h) + t;
            && s[0..4] == BigEndian(h.magic, 4) && s[4..6] == BigEndian(h.version, 2)
            && s[6..8] == BigEndian(h.msgType, 2) && s[8..10] == BigEndian(h.opcode, 2)
            && s[10..12] == BigEndian(h.status, 2) && s[12..16] == BigEndian(h.bodyLength, 4)
            && s[16..24] == BigEndian(h.requestId, 8) && s[24..] == t
  {}

  lemma HeadRoundTrip(h: Head, t: seq<Byte>)
    ensures DecodeHead(EncodeHead(h) + t) == h
  {
    HeadSlices(h, t);
    FieldsRoundTrip(h);
  }

  /** Decoding an encoded packet, with anything behind it, gives the packet back exactly when its
      header tells its body's length. */
  lemma PacketRoundTrip(p: Packet, t: seq<Byte>)
    ensures DecodePacket(EncodePacket(p) + t) == Some(p) <==> p.head.bodyLength == |p.body|
  {
    var flow := EncodePacket(p) + t;
    Assoc(EncodeHead(p.head), p.body, t);
    HeadRoundTrip(p.head, p.body + t);
    HeadSlices(p.head, p.body + t);
    if p.head.bodyLength == |p.body| {
      assert flow[HEAD_SIZE..HEAD_SIZE + |p.body|] == p.body;
    }
  }

  lemma {:induction false} HeadBack(s: seq<Byte>)
    requires |s| >= HEAD_SIZE
    ensures EncodeHead(DecodeHead(s)) == s[..HEAD_SIZE]
  {
    WriteBack(s[0..4]);
    WriteBack(s[4..6]);
    WriteBack(s[6..8]);
    WriteBack(s[8..10]);
    WriteBack(s[10..12]);
    WriteBack(s[12..16]);
    WriteBack(s[16..24]);
    assert s[..HEAD_SIZE] == s[0..4] + s[4..6] + s[6..8] + s[8..10] + s[10..12] + s[12..16] + s[16..24];
  }

  /** A stream decodes to a packet exactly when it begins with that packet's encoding. */
  lemma DecodesExactly(flow: seq<Byte>, p: Packet)
    ensures DecodePacket(flow) == Some(p) <==> p.head.bodyLength == |p.body| && EncodePacket(p) <= flow
  {
    if DecodePacket(flow) == Some(p) {
      HeadBack(flow);
      assert EncodePacket(p) == flow[..HEAD_SIZE] + flow[HEAD_SIZE..HEAD_SIZE + |p.body|];
      assert flow[..HEAD_SIZE] + flow[HEAD_SIZE..HEAD_SIZE + |p.body|] == flow[..HEAD_SIZE + |p.body|];
    } else if p.head.bodyLength == |p.body| && EncodePacket(p) <= flow {
      var n := |EncodePacket(p)|;
      assert flow[..n] == EncodePacket(p);
      SplitAt(flow, n);
      PacketRoundTrip(p, flow[n..]);
    }
  }

  // ---- the layout, byte by byte ----

  /** The 24 bytes of a header. */
  lemma HeadLayout(h: Head)
    ensures EncodeHead(h) == Four(h.magic) + Two(h.version) + Two(h.msgType) + Two(h.opcode) + Two(h.status)
                             + Four(h.bodyLength) + BigEndian(h.requestId, 8)
  {
    FourIs(h.magic);
    TwoIs(h.version);
    TwoIs(h.msgType);
    TwoIs(h.opcode);
    TwoIs(h.status);
    FourIs(h.bodyLength);
  }

  lemma PacketLayout(msgType: U16, opcode: U16, status: U16, bodyLength: U32, requestId: U64, body: seq<Byte>)
    ensures EncodePacket(Packet(Head(MAGIC, VERSION, msgType, opcode, status, bodyLength, requestId), body))
         == [6, 22, 16, 39] + [0, 1] + Two(msgType) + Two(opcode) + Two(status) + Four(bodyLength)
            + BigEndian(requestId, 8) + body
  {
    HeadLayout(Head(MAGIC, VERSION, msgType, opcode, status, bodyLength, requestId));
    MagicBytes();
  }

  lemma MagicBytes()
    ensures Four(MAGIC) == [6, 22, 16, 39] && Two(VERSION) == [0, 1]
  {}

  // ---- requests ----

  function RequestPacket(opcode: U16, body: seq<Byte>): Packet {
    Packet(Head(MAGIC, VERSION, REQUEST, opcode, STATUS_OK, Narrow(|body|), 0), body)
  }

  function Finish(opcode: U16, body: seq<Byte>): Option<Packet> {
    if |body| > MAX_BODY then None else Some(RequestPacket(opcode, body))
  }

  function EncodeRequest(r: Request): Option<Packet> {
    var k, v := Narrow(|r.key|), Narrow(|r.value|);
    if r.opcode == PING then Finish(r.opcode, [])
    else if r.opcode == PUT then
      if k == 0 || k > MAX_KEY || v > MAX_VALUE then None
      else Finish(r.opcode, BigEndian(k, 4) + BigEndian(v, 4) + r.key + r.value)
    else if r.opcode == GET || r.opcode == DEL then
      if k == 0 || k > MAX_KEY then None
      else Finish(r.opcode, BigEndian(k, 4) + r.key)
    else None
  }

  function DecodePut(body: seq<Byte>): Option<Request> {
    if |body| < 8 then None
    else
      var k, v := U32At(body, 0), U32At(body, 4);
      if k == 0 || k > MAX_KEY || v > MAX_VALUE || 8 + k + v != |body| then None
      else Some(Request(PUT, body[8..8 + k], body[8 + k..8 + k + v]))
  }

  function DecodeKey(opcode: U16, body: seq<Byte>): Option<Request> {
    if |body| < 4 then None
    else
      var k := U32At(body, 0);
      if k == 0 || k > MAX_KEY || 4 + k != |body| then None
      else Some(Request(opcode, body[4..4 + k], []))
  }

  function DecodeRequest(p: Packet): Option<Request> {
    var op := p.head.opcode;
    if p.head.msgType != REQUEST || p.head.bodyLength != |p.body| || |p.body| > MAX_BODY then None
    else if op == PING then
      if p.body == [] then Some(Request(op, [], [])) else None
    else if op == PUT then DecodePut(p.body)
    else if op == GET || op == DEL then DecodeKey(op, p.body)
    else None
  }

  /** The limits of the protocol, on the true sizes. */
  predicate Encodable(r: Request) {
    || r.opcode == PING
    || (r.opcode == PUT && 1 <= |r.key| <= MAX_KEY && |r.value| <= MAX_VALUE)
    || ((r.opcode == GET || r.opcode == DEL) && 1 <= |r.key| <= MAX_KEY)
  }

  /** What an opcode carries: a ping nothing, a get or a delete its key. */
  function Carried(r: Request): Request {
    if r.opcode == PING then Request(PING, [], [])
    else if r.opcode == PUT then r
    else r.(value := [])
  }

  function PutBytes(key: seq<Byte>, value: seq<Byte>): seq<Byte> {
    BigEndian(|key|, 4) + BigEndian(|value|, 4) + key + value
  }

  function KeyBytes(key: seq<Byte>): seq<Byte> {
    BigEndian(|key|, 4) + key
  }

  /** The body layout of the protocol, in true sizes. */
  function BodyOf(r: Request): seq<Byte> {
    if r.opcode == PING then []
    else if r.opcode == PUT then PutBytes(r.key, r.value)
    else KeyBytes(r.key)
  }

  lemma TooLong(r: Request)
    requires r.opcode == PUT || r.opcode == GET || r.opcode == DEL
    requires |r.key| >= 0x1_0000_0000 || (r.opcode == PUT && |r.value| >= 0x1_0000_0000)
    ensures EncodeRequest(r).None?
  {}

  /** Narrowing the sizes to 32 bits never lets a wrong length through: a request encodes exactly
      when its true sizes are within the limits, because the body limit refuses the rest. */
  lemma EncodesExactly(r: Request)
    ensures EncodeRequest(r) == if Encodable(r) then Some(RequestPacket(r.opcode, BodyOf(r))) else None
    ensures Encodable(r) ==>
              |BodyOf(r)| <= MAX_BODY && RequestPacket(r.opcode, BodyOf(r)).head.bodyLength == |BodyOf(r)|
  {
    if (r.opcode == PUT || r.opcode == GET || r.opcode == DEL)
       && (|r.key| >= 0x1_0000_0000 || (r.opcode == PUT && |r.value| >= 0x1_0000_0000)) {
      TooLong(r);
    } else if r.opcode == PUT {
      assert Narrow(|r.key|) == |r.key| && Narrow(|r.value|) == |r.value|;
    } else if r.opcode == GET || r.opcode == DEL {
      assert Narrow(|r.key|) == |r.key|;
    }
  }

  /** Which requests encode, and to which bytes: magic, version, type, opcode, no status, the length of
      the body, no id, and the body of that opcode. */
  lemma RequestLayout(r: Request)
    ensures EncodeRequest(r).Some? <==>
              || r.opcode == 1
              || (r.opcode == 2 && 1 <= |r.key| <= 256 && |r.value| <= 1048576)
              || ((r.opcode == 3 || r.opcode == 4) && 1 <= |r.key| <= 256)
    ensures EncodeRequest(r).Some? ==>
              var body := if r.opcode == 1 then []
                          else if r.opcode == 2 then Four(|r.key|) + Four(|r.value|) + r.key + r.value
                          else Four(|r.key|) + r.key;
              EncodePacket(EncodeRequest(r).value)
              == [6, 22, 16, 39] + [0, 1] + [0, 1] + Two(r.opcode) + [0, 0] + Four(|body|) + EIGHT_ZEROS
                 + body
  {
    EncodesExactly(r);
    if Encodable(r) {
      FourIs(|r.key|);
      FourIs(|r.value|);
      var body := BodyOf(r);
      PacketLayout(1, r.opcode, 0, |body|, 0, body);
      EightZeros();
      assert Two(0) == [0, 0];
    }
  }

  const EIGHT_ZEROS: seq<Byte> := [0, 0, 0, 0, 0, 0, 0, 0]

  lemma EightZeros()
    ensures BigEndian(0, 8) == EIGHT_ZEROS
  {
    assert BigEndian(0, 4) == [0, 0, 0, 0] by { FourIs(0); }
    assert BigEndian(0, 6) == BigEndian(0, 5) + [0];
  }

  lemma U32Slices(a: nat, b: nat, t: seq<Byte>)
    requires a < 0x1_0000_0000 && b < 0x1_0000_0000
    ensures var s := BigEndian(a, 4) + BigEndian(b, 4) + t;
            U32At(s, 0) == a && U32At(s, 4) == b && s[8..] == t
  {
    PowWidths();
    RoundTrip(a, 4);
    RoundTrip(b, 4);
    var s := BigEndian(a, 4) + BigEndian(b, 4) + t;
    assert s[0..4] == BigEndian(a, 4) && s[4..8] == BigEndian(b, 4);
  }

  lemma U32Slice(a: nat, t: seq<Byte>)
    requires a < 0x1_0000_0000
    ensures var s := BigEndian(a, 4) + t;
            U32At(s, 0) == a && s[4..] == t
  {
    PowWidths();
    RoundTrip(a, 4);
    assert (BigEndian(a, 4) + t)[0..4] == BigEndian(a, 4);
  }

  lemma PutSlices(key: seq<Byte>, value: seq<Byte>)
    requires |key| < 0x1_0000_0000 && |value| < 0x1_0000_0000
    ensures var k, v, s := |key|, |value|, PutBytes(key, value);
            U32At(s, 0) == k && U32At(s, 4) == v && s[8..8 + k] == key && s[8 + k..8 + k + v] == value
  {
    var k, v, s := |key|, |value|, PutBytes(key, value);
    Assoc(BigEndian(k, 4) + BigEndian(v, 4), key, value);
    U32Slices(k, v, key + value);
    assert s[8..8 + k] == s[8..][..k] && s[8 + k..8 + k + v] == s[8..][k..];
  }

  lemma PutCut(body: seq<Byte>, k: nat)
    requires 8 + k <= |body|
    ensures body == body[0..4] + body[4..8] + body[8..8 + k] + body[8 + k..]
  {}

  /** What was laid out is read back. */
  lemma BodyBack(r: Request)
    requires Encodable(r)
    ensures r.opcode == PUT ==> DecodePut(BodyOf(r)) == Some(r)
    ensures r.opcode == GET || r.opcode == DEL ==> DecodeKey(r.opcode, BodyOf(r)) == Some(r.(value := []))
  {
    if r.opcode == PUT {
      PutSlices(r.key, r.value);
    } else if r.opcode != PING {
      U32Slice(|r.key|, r.key);
      assert BodyOf(r)[4..4 + |r.key|] == BodyOf(r)[4..];
    }
  }

  /** A request that encodes comes back through the bytes, whatever follows it in the stream: its
      opcode and what that opcode carries. */
  lemma RequestRoundTrip(r: Request, t: seq<Byte>)
    requires Encodable(r)
    ensures EncodeRequest(r).Some?
    ensures var p := DecodePacket(EncodePacket(EncodeRequest(r).value) + t);
            p == EncodeRequest(r) && DecodeRequest(p.value) == Some(Carried(r))
  {
    EncodesExactly(r);
    PacketRoundTrip(RequestPacket(r.opcode, BodyOf(r)), t);
    BodyBack(r);
  }

  lemma AcceptedPut(body: seq<Byte>)
    requires DecodePut(body).Some?
    ensures var r := DecodePut(body).value;
            Encodable(r) && r.opcode == PUT && BodyOf(r) == body
  {
    var k, v := U32At(body, 0), U32At(body, 4);
    WriteBack(body[0..4]);
    WriteBack(body[4..8]);
    PutCut(body, k);
    assert body[8 + k..8 + k + v] == body[8 + k..];
  }

  lemma AcceptedKey(opcode: U16, body: seq<Byte>)
    requires (opcode == GET || opcode == DEL) && DecodeKey(opcode, body).Some?
    ensures var r := DecodeKey(opcode, body).value;
            Encodable(r) && r.opcode == opcode && r.value == [] && BodyOf(r) == body
  {
    var k := U32At(body, 0);
    WriteBack(body[0..4]);
    SplitAt(body, 4);
    assert body[..4] == body[0..4] && body[4..4 + k] == body[4..];
  }

  /** And conversely a packet that is accepted as a request has the body of exactly that request. */
  lemma AcceptedIsEncoding(p: Packet)
    requires DecodeRequest(p).Some?
    ensures var r := DecodeRequest(p).value;
            && Encodable(r) && Carried(r) == r
            && EncodeRequest(r) == Some(RequestPacket(p.head.opcode, p.body))
            && RequestPacket(p.head.opcode, p.body).head.bodyLength == p.head.bodyLength
  {
    if p.head.opcode == PUT {
      AcceptedPut(p.body);
    } else if p.head.opcode != PING {
      AcceptedKey(p.head.opcode, p.body);
    }
    EncodesExactly(DecodeRequest(p).value);
  }

  /** A packet is accepted as a request exactly when it is of the request type, tells its body's length
      truly, and has the body of that request, within the limits. */
  lemma AcceptsExactly(p: Packet, r: Request)
    ensures DecodeRequest(p) == Some(r) <==>
              && p.head.msgType == 1 && p.head.bodyLength == |p.body| && p.head.opcode == r.opcode
              && EncodeRequest(r).Some? && Carried(r) == r && p.body == BodyOf(r)
  {
    EncodesExactly(r);
    if DecodeRequest(p) == Some(r) {
      AcceptedIsEncoding(p);
      EncodesExactly(r);
    } else if p.head.opcode == r.opcode && Encodable(r) && Carried(r) == r && p.body == BodyOf(r) {
      BodyBack(r);
    }
  }

  // ---- responses ----

  /** Only a successful get has a body. */
  predicate Carries(opcode: U16, status: U16) {
    opcode == GET && status == STATUS_OK
  }

  function ResponsePacket(status: U16, opcode: U16, requestId: U64, body: seq<Byte>): Packet {
    Packet(Head(MAGIC, VERSION, RESPONSE, opcode, status, Narrow(|body|), requestId), body)
  }

  function EncodeResponse(r: Response, opcode: U16, requestId: U64): Option<Packet> {
    var v := Narrow(|r.value|);
    if !Carries(opcode, r.status) then Some(ResponsePacket(r.status, opcode, requestId, []))
    else if v > MAX_VALUE then None
    else
      var body := BigEndian(v, 4) + r.value;
      if |body| > MAX_BODY then None else Some(ResponsePacket(r.status, opcode, requestId, body))
  }

  function DecodeResponse(p: Packet): Option<Response> {
    var status := p.head.status;
    if Carries(p.head.opcode, status) then
      if |p.body| < 4 then None
      else
        var v := U32At(p.body, 0);
        if v > MAX_VALUE || 4 + v != |p.body| then None
        else Some(Response(status, [], p.body[4..4 + v]))
    else if p.body == [] then Some(Response(status, [], []))
    else None
  }

  lemma ValueEncodes(r: Response, opcode: U16, requestId: U64)
    requires Carries(opcode, r.status)
    ensures EncodeResponse(r, opcode, requestId)
         == if |r.value| > MAX_VALUE then None
            else Some(ResponsePacket(r.status, opcode, requestId, KeyBytes(r.value)))
  {
    if |r.value| < 0x1_0000_0000 { assert Narrow(|r.value|) == |r.value|; }
  }

  lemma ValueBack(p: Packet, r: Response)
    requires Carries(p.head.opcode, p.head.status) && p.head.status == r.status && |r.value| <= MAX_VALUE
    requires p.body == KeyBytes(r.value)
    ensures DecodeResponse(p) == Some(r.(key := []))
  {
    U32Slice(|r.value|, r.value);
    assert p.body[4..4 + |r.value|] == p.body[4..];
  }

  /** What a client reads back from a response packet. */
  ghost predicate ReadsBack(p: Packet, r: Response, opcode: U16, requestId: U64) {
    && DecodeResponse(p) == Some(r.(key := []))
    && p.head.magic == 0x0616_1027 && p.head.version == 1 && p.head.msgType == 2
    && p.head.opcode == opcode && p.head.requestId == requestId && p.head.bodyLength == |p.body|
  }

  /** A response encodes exactly when the value it carries, if any, is within the limit, and a
      client then reads back its status and that value, with the opcode and id of the request. */
  lemma ResponseRoundTrip(r: Response, opcode: U16, requestId: U64)
    ensures var p := EncodeResponse(r, opcode, requestId);
            && (p.Some? <==> (Carries(opcode, r.status) ==> |r.value| <= MAX_VALUE))
            && (p.Some? ==>
                  ReadsBack(p.value, if Carries(opcode, r.status) then r else r.(value := []), opcode, requestId))
  {
    if Carries(opcode, r.status) {
      ValueEncodes(r, opcode, requestId);
      if |r.value| <= MAX_VALUE {
        ValueBack(ResponsePacket(r.status, opcode, requestId, KeyBytes(r.value)), r);
      }
    }
  }

  /** Which responses encode, and to which bytes. */
  lemma ResponseLayout(r: Response, opcode: U16, requestId: U64)
    ensures var p := EncodeResponse(r, opcode, requestId);
            var body := if opcode == 3 && r.status == 0 then Four(|r.value|) + r.value else [];
            && (p.Some? <==> (opcode == 3 && r.status == 0 ==> |r.value| <= 1048576))
            && (p.Some? ==>
                  EncodePacket(p.value)
                  == [6, 22, 16, 39] + [0, 1] + [0, 2] + Two(opcode) + Two(r.status) + Four(|body|)
                     + BigEndian(requestId, 8) + body)
  {
    if Carries(opcode, r.status) {
      ValueEncodes(r, opcode, requestId);
      if |r.value| <= MAX_VALUE {
        FourIs(|r.value|);
        ResponseBytes(r.status, opcode, requestId, KeyBytes(r.value));
      }
    } else {
      ResponseBytes(r.status, opcode, requestId, []);
    }
  }

  lemma ResponseBytes(status: U16, opcode: U16, requestId: U64, body: seq<Byte>)
    requires |body| < 0x1_0000_0000
    ensures EncodePacket(ResponsePacket(status, opcode, requestId, body))
         == [6, 22, 16, 39] + [0, 1] + [0, 2] + Two(opcode) + Two(status) + Four(|body|) + BigEndian(requestId, 8)
            + body
  {
    PacketLayout(2, opcode, status, |body|, requestId, body);
    assert Two(2) == [0, 2] && Narrow(|body|) == |body|;
  }

  /** A client accepts exactly the responses so laid out. */
  lemma ReadsExactly(p: Packet, r: Response)
    ensures DecodeResponse(p) == Some(r) <==>
              && r.status == p.head.status && r.key == []
              && if p.head.opcode == 3 && p.head.status == 0
                 then |r.value| <= 1048576 && p.body == Four(|r.value|) + r.value
                 else r.value == [] && p.body == []
  {
    FourIs(|r.value|);
    if Carries(p.head.opcode, p.head.status) {
      if |p.body| >= 4 {
        WriteBack(p.body[0..4]);
        SplitAt(p.body, 4);
        assert p.body[..4] == p.body[0..4];
        var v: nat := U32At(p.body, 0);
        if 4 + v == |p.body| { assert p.body[4..4 + v] == p.body[4..]; }
      }
      if p.body == KeyBytes(r.value) && |r.value| <= 1048576 && r.status == p.head.status { ValueBack(p, r); }
    }
  }
}
