/** The codec as it runs: fields read and written one after another at an advancing offset. */
module KvFlow {
  import opened Bytes
  import opened Buffer
  import opened KvCodec

  /** `WriteFlowToHost`: the `w`-byte integer at `offset`, unless the flow is too short. */
  method ReadInteger(flow: seq<Byte>, offset: nat, w: nat) returns (value: Option<nat>, next: nat)
    ensures value.Some? <==> offset + w <= |flow|
    ensures value.Some? ==> value.value == FromBigEndian(flow[offset..offset + w]) < Pow256(w) && next == offset + w
    ensures value.None? ==> next == offset
  {
    if offset + w > |flow| {
      return None, offset;
    }
    value, next := Some(FromBigEndian(flow[offset..offset + w])), offset + w;
  }

  /** `ReadBodyString`. */
  method ReadString(flow: seq<Byte>, offset: nat, len: nat) returns (s: Option<seq<Byte>>, next: nat)
    ensures s.Some? <==> offset + len <= |flow|
    ensures s.Some? ==> s.value == flow[offset..offset + len] && next == offset + len
    ensures s.None? ==> next == offset
  {
    if offset + len > |flow| {
      return None, offset;
    }
    s, next := Some(flow[offset..offset + len]), offset + len;
  }

  method DecodeFlowToPacket(flow: seq<Byte>) returns (p: Option<Packet>)
    ensures p == DecodePacket(flow)
  {
    if |flow| < HEAD_SIZE {
      return None;
    }
    PowWidths();
    var magic, o1 := ReadInteger(flow, 0, 4);
    var version, o2 := ReadInteger(flow, o1, 2);
    var msgType, o3 := ReadInteger(flow, o2, 2);
    var opcode, o4 := ReadInteger(flow, o3, 2);
    var status, o5 := ReadInteger(flow, o4, 2);
    var bodyLength, o6 := ReadInteger(flow, o5, 4);
    var requestId, o7 := ReadInteger(flow, o6, 8);
    if bodyLength.value + HEAD_SIZE > |flow| {
      return None;
    }
    p := Some(Packet(Head(magic.value, version.value, msgType.value, opcode.value, status.value,
                          bodyLength.value, requestId.value),
                     flow[o7..o7 + bodyLength.value]));
  }

  /** `WriteHostToFlow`: store a big-endian integer and advance the offset, unless it does not fit. */
  method WriteInteger(store: array<Byte>, offset: nat, n: nat, w: nat) returns (ok: bool, next: nat)
    modifies store
    ensures ok <==> offset + w <= store.Length
    ensures ok ==> next == offset + w && store[..next] == old(store[..offset]) + BigEndian(n, w)
    ensures ok ==> store[next..] == old(store[offset + w..])
    ensures !ok ==> next == offset && store[..] == old(store[..])
  {
    if offset + w > store.Length {
      return false, offset;
    }
    CopyIn(store, offset, BigEndian(n, w));
    ok, next := true, offset + w;
    SplitAt(store[..next], offset);
  }

  method EncodeHeadInto(h: Head, store: array<Byte>) returns (offset: nat)
    requires store.Length >= HEAD_SIZE
    modifies store
    ensures offset == HEAD_SIZE && store[..offset] == EncodeHead(h)
  {
    var ok, o := WriteInteger(store, 0, h.magic, 4);
    ok, o := WriteInteger(store, o, h.version, 2);
    ok, o := WriteInteger(store, o, h.msgType, 2);
    ok, o := WriteInteger(store, o, h.opcode, 2);
    ok, o := WriteInteger(store, o, h.status, 2);
    ok, o := WriteInteger(store, o, h.bodyLength, 4);
    ok, offset := WriteInteger(store, o, h.requestId, 8);
    assert [] + BigEndian(h.magic, 4) == BigEndian(h.magic, 4);
  }

  /** Writes a packet into a caller's memory, or refuses for lack of room. */
  method EncodeInto(p: Packet, store: array<Byte>) returns (ok: bool)
    modifies store
    ensures ok <==> store.Length >= HEAD_SIZE + |p.body|
    ensures ok ==> store[..HEAD_SIZE + |p.body|] == EncodePacket(p)
    ensures !ok ==> store[..] == old(store[..])
  {
    ok := store.Length >= HEAD_SIZE + |p.body|;
    if ok {
      var o := EncodeHeadInto(p.head, store);
      CopyIn(store, o, p.body);
      SplitAt(store[..o + |p.body|], o);
    }
  }

  method EncodePacketToFlow(p: Packet) returns (flow: seq<Byte>)
    ensures flow == EncodePacket(p)
  {
    var store := new Byte[HEAD_SIZE + |p.body|];
    var ok := EncodeInto(p, store);
    flow := store[..];
  }

  method EncodeRequestToPacket(r: Request) returns (p: Option<Packet>)
    ensures p == EncodeRequest(r)
  {
    var body: seq<Byte> := [];
    if r.opcode == PUT {
      var k, v := Narrow(|r.key|), Narrow(|r.value|);
      if k == 0 || k > MAX_KEY || v > MAX_VALUE {
        return None;
      }
      body := BigEndian(k, 4);
      body := body + BigEndian(v, 4);
      body := body + r.key;
      body := body + r.value;
    } else if r.opcode == GET || r.opcode == DEL {
      var k := Narrow(|r.key|);
      if k == 0 || k > MAX_KEY {
        return None;
      }
      body := BigEndian(k, 4);
      body := body + r.key;
    } else if r.opcode != PING {
      return None;
    }
    if |body| > MAX_BODY {
      return None;
    }
    p := Some(RequestPacket(r.opcode, body));
  }

  method DecodePacketToRequest(p: Packet) returns (r: Option<Request>)
    ensures r == DecodeRequest(p)
  {
    var op := p.head.opcode;
    if p.head.msgType != REQUEST || p.head.bodyLength != |p.body| || p.head.bodyLength > MAX_BODY {
      return None;
    }
    if op == PING {
      r := if p.body == [] then Some(Request(op, [], [])) else None;
    } else if op == PUT {
      r := DecodePutBody(p.body);
    } else if op == GET || op == DEL {
      var k, o := ReadInteger(p.body, 0, 4);
      if k.None? || k.value == 0 || k.value > MAX_KEY {
        return None;
      }
      var key, end := ReadString(p.body, o, k.value);
      r := if key.Some? && end == |p.body| then Some(Request(op, key.value, [])) else None;
    } else {
      r := None;
    }
  }

  method DecodePutBody(body: seq<Byte>) returns (r: Option<Request>)
    ensures r == DecodePut(body)
  {
    var k, o1 := ReadInteger(body, 0, 4);
    if k.None? {
      return None;
    }
    var v, o2 := ReadInteger(body, o1, 4);
    if v.None? || k.value == 0 || k.value > MAX_KEY || v.value > MAX_VALUE {
      return None;
    }
    var key, o3 := ReadString(body, o2, k.value);
    if key.None? {
      return None;
    }
    var value, end := ReadString(body, o3, v.value);
    r := if value.Some? && end == |body| then Some(Request(PUT, key.value, value.value)) else None;
  }
}
