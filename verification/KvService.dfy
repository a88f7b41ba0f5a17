/** The store and the service of src/kv, against a plain map. */
module KvService {
  import opened Bytes
  import opened KvCodec
  import opened KvFlow

  type Store = map<seq<Byte>, seq<Byte>>

  // ---- the reference: a sequential map ----

  /** What a request packet asks for; a status already set, or one that does not decode, is refused. */
  datatype Command =
    | Ping
    | Put(key: seq<Byte>, value: seq<Byte>)
    | Get(key: seq<Byte>)
    | Del(key: seq<Byte>)
    | Refuse(status: U16)

  function CommandOf(p: Packet): Command {
    if p.head.status != STATUS_OK then Refuse(p.head.status)
    else match DecodeRequest(p)
      case None => Refuse(BAD_REQUEST)
      case Some(r) =>
        if r.opcode == PING then Ping
        else if r.opcode == PUT then Put(r.key, r.value)
        else if r.opcode == GET then Get(r.key)
        else Del(r.key)
  }

  function After(m: Store, c: Command): Store {
    match c
    case Put(k, v) => m[k := v]
    case Del(k) => m - {k}
    case _ => m
  }

  function Answer(m: Store, c: Command): Response {
    match c
    case Ping => Response(STATUS_OK, [], [])
    case Put(k, _) => Response(STATUS_OK, k, [])
    case Get(k) => if k in m then Response(STATUS_OK, k, m[k]) else Response(NOT_FOUND, k, [])
    case Del(k) => Response(if k in m then STATUS_OK else NOT_FOUND, k, [])
    case Refuse(s) => Response(s, [], [])
  }

  // ---- the service ----

  /** What the store does with a decoded request. */
  function Dispatch(m: Store, r: Request): (Store, Response) {
    if r.opcode == PING then (m, Response(STATUS_OK, [], []))
    else if r.opcode == PUT then (m[r.key := r.value], Response(STATUS_OK, r.key, []))
    else if r.opcode == GET then
      (m, if r.key in m then Response(STATUS_OK, r.key, m[r.key]) else Response(NOT_FOUND, r.key, []))
    else if r.opcode == DEL then
      (m - {r.key}, Response(if r.key in m then STATUS_OK else NOT_FOUND, r.key, []))
    else (m, Response(UNSUPPORTED_OPCODE, [], []))
  }

  function Handle(m: Store, p: Packet): (Store, Response) {
    if p.head.status != STATUS_OK then (m, Response(p.head.status, [], []))
    else match DecodeRequest(p)
      case None => (m, Response(BAD_REQUEST, [], []))
      case Some(r) => Dispatch(m, r)
  }

  /** The response packet, or the internal-error fallback when it cannot be encoded. */
  function Wrap(r: Response, p: Packet): Packet {
    match EncodeResponse(r, p.head.opcode, p.head.requestId)
    case Some(q) => q
    case None => ResponsePacket(INTERNAL_ERROR, p.head.opcode, p.head.requestId, [])
  }

  function Echo(m: Store, p: Packet): (Store, Packet) {
    var (m', r) := Handle(m, p);
    (m', Wrap(r, p))
  }

  /** Every stored key and value is within the protocol's limits. */
  ghost predicate Stored(m: Store) {
    forall k :: k in m ==> 1 <= |k| <= MAX_KEY && |m[k]| <= MAX_VALUE
  }

  lemma HandleIsMap(m: Store, p: Packet)
    ensures Handle(m, p) == (After(m, CommandOf(p)), Answer(m, CommandOf(p)))
  {}

  /** One request: the answer is the map's, under the request's own opcode and id; the limits keep
      holding; and the internal-error fallback is not taken. */
  lemma EchoIsMap(m: Store, p: Packet)
    requires Stored(m)
    ensures var (m', q) := Echo(m, p);
            && m' == After(m, CommandOf(p)) && Stored(m')
            && ReadsBack(q, Answer(m, CommandOf(p)), p.head.opcode, p.head.requestId)
            && EncodeResponse(Handle(m, p).1, p.head.opcode, p.head.requestId) == Some(q)
  {
    HandleIsMap(m, p);
    var r := Answer(m, CommandOf(p));
    ResponseRoundTrip(r, p.head.opcode, p.head.requestId);
    if DecodeRequest(p).Some? {
      AcceptedIsEncoding(p);
    }
    if r.value != [] {
      assert CommandOf(p).Get? && Carries(p.head.opcode, r.status);
    }
  }

  function EchoAll(m: Store, ps: seq<Packet>): (Store, seq<Packet>)
    decreases |ps|
  {
    if ps == [] then (m, [])
    else
      var (m1, q) := Echo(m, ps[0]);
      var (m2, qs) := EchoAll(m1, ps[1..]);
      (m2, [q] + qs)
  }

  /** The map after the first `i` requests. */
  function MapAfter(m: Store, ps: seq<Packet>, i: nat): Store
    requires i <= |ps|
  {
    if i == 0 then m else After(MapAfter(m, ps, i - 1), CommandOf(ps[i - 1]))
  }

  lemma {:induction false} MapShift(m: Store, ps: seq<Packet>, i: nat)
    requires 0 < |ps| && i <= |ps| - 1
    ensures MapAfter(After(m, CommandOf(ps[0])), ps[1..], i) == MapAfter(m, ps, i + 1)
  {
    if i > 0 { MapShift(m, ps, i - 1); }
  }

  /** The `i`-th response reads back as the map's answer to the `i`-th request. */
  ghost predicate AnsweredAt(m: Store, ps: seq<Packet>, qs: seq<Packet>, i: nat)
    requires |qs| == |ps| && i < |ps|
  {
    ReadsBack(qs[i], Answer(MapAfter(m, ps, i), CommandOf(ps[i])), ps[i].head.opcode, ps[i].head.requestId)
  }

  lemma AnsweredShift(m: Store, ps: seq<Packet>, q: Packet, qs: seq<Packet>, i: nat)
    requires 0 < i < |ps| && |qs| == |ps| - 1
    requires AnsweredAt(After(m, CommandOf(ps[0])), ps[1..], qs, i - 1)
    ensures AnsweredAt(m, ps, [q] + qs, i)
  {
    MapShift(m, ps, i - 1);
    assert ps[1..][i - 1] == ps[i] && ([q] + qs)[i] == qs[i - 1];
  }

  lemma AnsweredAll(m: Store, ps: seq<Packet>, q: Packet, qs: seq<Packet>)
    requires ps != [] && |qs| == |ps| - 1
    requires ReadsBack(q, Answer(m, CommandOf(ps[0])), ps[0].head.opcode, ps[0].head.requestId)
    requires forall i :: 0 <= i < |qs| ==> AnsweredAt(After(m, CommandOf(ps[0])), ps[1..], qs, i)
    ensures forall i :: 0 <= i < |ps| ==> AnsweredAt(m, ps, [q] + qs, i)
  {
    forall i | 0 <= i < |ps| ensures AnsweredAt(m, ps, [q] + qs, i) {
      if i > 0 { AnsweredShift(m, ps, q, qs, i); }
    }
  }

  /** For every sequence of request packets the service is a sequential map: each response is the
      map's answer, under the request's opcode and id, and the store is that map. */
  lemma {:induction false} ServiceIsMap(m: Store, ps: seq<Packet>)
    requires Stored(m)
    ensures EchoAll(m, ps).0 == MapAfter(m, ps, |ps|) && Stored(EchoAll(m, ps).0)
    ensures |EchoAll(m, ps).1| == |ps|
    ensures forall i :: 0 <= i < |ps| ==> AnsweredAt(m, ps, EchoAll(m, ps).1, i)
    decreases |ps|
  {
    if ps != [] {
      var (m1, q) := Echo(m, ps[0]);
      EchoIsMap(m, ps[0]);
      ServiceIsMap(m1, ps[1..]);
      MapShift(m, ps, |ps| - 1);
      AnsweredAll(m, ps, q, EchoAll(m1, ps[1..]).1);
    }
  }

  // ---- the reference is the map a client expects ----

  /** The `i`-th packet asks for something about `k` to be changed. */
  ghost predicate Changes(ps: seq<Packet>, i: nat, k: seq<Byte>) {
    i < |ps| && match CommandOf(ps[i]) case Put(key, _) => key == k case Del(key) => key == k case _ => false
  }

  lemma {:induction false} UnchangedSince(m: Store, ps: seq<Packet>, j: nat, i: nat, k: seq<Byte>)
    requires j <= i <= |ps| && forall x :: j <= x < i ==> !Changes(ps, x, k)
    ensures k in MapAfter(m, ps, i) <==> k in MapAfter(m, ps, j)
    ensures k in MapAfter(m, ps, i) ==> MapAfter(m, ps, i)[k] == MapAfter(m, ps, j)[k]
    decreases i
  {
    if i > j {
      assert !Changes(ps, i - 1, k);
      UnchangedSince(m, ps, j, i - 1, k);
    }
  }

  /** Reads see the last write: in any sequence of packets, a key that was put and not changed since
      is found with that value; one that was deleted and not put since, or never there, is not. */
  lemma ReadsLastWrite(m: Store, ps: seq<Packet>, j: nat, i: nat, k: seq<Byte>, v: seq<Byte>)
    requires j < i <= |ps| && forall x :: j < x < i ==> !Changes(ps, x, k)
    ensures CommandOf(ps[j]) == Command.Put(k, v) ==> Answer(MapAfter(m, ps, i), Command.Get(k)) == Response(0, k, v)
    ensures CommandOf(ps[j]) == Command.Del(k) ==> Answer(MapAfter(m, ps, i), Command.Get(k)) == Response(1, k, [])
  {
    UnchangedSince(m, ps, j + 1, i, k);
  }

  lemma ReadsUntouched(m: Store, ps: seq<Packet>, i: nat, k: seq<Byte>)
    requires i <= |ps| && forall x :: 0 <= x < i ==> !Changes(ps, x, k)
    ensures Answer(MapAfter(m, ps, i), Command.Get(k))
         == if k in m then Response(0, k, m[k]) else Response(1, k, [])
  {
    UnchangedSince(m, ps, 0, i, k);
  }

  /** What is answered without looking at the map, and to a delete, by status. */
  lemma OtherAnswers(m: Store, k: seq<Byte>, v: seq<Byte>, status: U16)
    ensures Answer(m, Ping) == Response(0, [], []) && Answer(m, Command.Put(k, v)) == Response(0, k, [])
    ensures Answer(m, Command.Del(k)) == Response(if k in m then 0 else 1, k, [])
    ensures Answer(m, Refuse(status)) == Response(status, [], [])
  {}

  /** What a packet asks for, by its bytes: a packet under no status that carries an encodable request
      asks for that request; any other is refused, with its own status or as a bad request. */
  lemma CommandExactly(p: Packet, r: Request)
    ensures p.head.status != 0 ==> CommandOf(p) == Refuse(p.head.status)
    ensures p.head.status == 0 && (forall q: Request :: DecodeRequest(p) != Some(q)) ==> CommandOf(p) == Refuse(2)
    ensures p.head.status == 0 && p.head.msgType == 1 && p.head.bodyLength == |p.body| && p.head.opcode == r.opcode
            && EncodeRequest(r).Some? && Carried(r) == r && p.body == BodyOf(r) ==>
              CommandOf(p) == if r.opcode == 1 then Ping
                              else if r.opcode == 2 then Command.Put(r.key, r.value)
                              else if r.opcode == 3 then Command.Get(r.key)
                              else Command.Del(r.key)
  {
    AcceptsExactly(p, r);
    EncodesExactly(r);
    if DecodeRequest(p).Some? { assert DecodeRequest(p) == Some(DecodeRequest(p).value); }
  }

  // ---- the objects ----

  class KvStore {
    var mp: Store

    constructor ()
      ensures mp == map[]
    {
      mp := map[];
    }

    method Get(key: seq<Byte>) returns (r: Response)
      ensures r == Answer(mp, Command.Get(key))
    {
      if key in mp {
        r := Response(STATUS_OK, key, mp[key]);
      } else {
        r := Response(NOT_FOUND, key, []);
      }
    }

    method Put(key: seq<Byte>, value: seq<Byte>) returns (r: Response)
      modifies this
      ensures mp == After(old(mp), Command.Put(key, value)) && r == Answer(old(mp), Command.Put(key, value))
    {
      mp := mp[key := value];
      r := Response(STATUS_OK, key, []);
    }

    method Del(key: seq<Byte>) returns (r: Response)
      modifies this
      ensures mp == After(old(mp), Command.Del(key)) && r == Answer(old(mp), Command.Del(key))
    {
      r := Response(if key in mp then STATUS_OK else NOT_FOUND, key, []);
      mp := mp - {key};
    }
  }

  class KvService {
    const store: KvStore

    constructor ()
      ensures fresh(store) && store.mp == map[]
    {
      store := new KvStore();
    }

    /** `ShouldEcho` for a request packet the injected predicate wants answered. */
    method ShouldEcho(p: Packet) returns (q: Packet)
      modifies store
      ensures (store.mp, q) == Echo(old(store.mp), p)
    {
      var r := Response(p.head.status, [], []);
      if p.head.status == STATUS_OK {
        var request := DecodePacketToRequest(p);
        if request.None? {
          r := Response(BAD_REQUEST, [], []);
        } else {
          var op := request.value.opcode;
          if op == PING {
            r := Response(STATUS_OK, [], []);
          } else if op == PUT {
            r := store.Put(request.value.key, request.value.value);
          } else if op == GET {
            r := store.Get(request.value.key);
          } else if op == DEL {
            r := store.Del(request.value.key);
          } else {
            r := Response(UNSUPPORTED_OPCODE, [], []);
          }
        }
      }
      q := Wrap(r, p);
    }
  }
}
