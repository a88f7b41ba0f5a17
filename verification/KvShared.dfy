/** Many key-value connections, each on a loop of its own, over the one store they share. A handler is
    interrupted between any two of its requests by the handlers of the others. */
module KvShared {
  import opened Bytes
  import opened Streaming
  import opened Connection
  import opened ConnectionProofs
  import opened KvCodec
  import opened KvService
  import KC = KvConnection
  import KR = KvReceive

  type Id = nat

  /** `busy`: its loop is inside the message handler. `arrived` is what has been read so far, `taken`
      the frames the handler has taken, and `rough` tells of an error or a request to close. */
  datatype Peer = Peer(conn: Conn, busy: bool, arrived: seq<Byte>, taken: seq<seq<Byte>>, rough: bool)

  ghost const NEWCOMER: Peer := Peer(Fresh(true), false, [], [], false)

  datatype Entry = Entry(id: Id, packet: Packet)

  /** `log` is the order in which the store's lock has let requests through. */
  datatype Hub = Hub(peers: map<Id, Peer>, store: Store, log: seq<Entry>)

  datatype Op =
    | Join(id: Id)
    | Arrive(id: Id, bytes: seq<Byte>, cb: seq<Call>)  // the scatter read; none at end of stream
    | Turn(id: Id, io: Io, cb: seq<Call>)              // one turn of the handler's loop
    | Other(id: Id, call: Call)                        // between events: activate, write, close

  ghost predicate Usual(op: Op) {
    op.Other? ==> KC.Usual(KC.Other(op.call))
  }

  // ---- the machine ----

  ghost function ArriveAt(p: Peer, bytes: seq<Byte>, cb: seq<Call>): Peer {
    if p.busy || p.conn.status != Connecting then p
    else if bytes == [] then p.(conn := CloseNow(p.conn, cb), rough := true)
    else p.(conn := p.conn.(rbuf := p.conn.rbuf + bytes), busy := true, arrived := p.arrived + bytes)
  }

  ghost function OtherAt(p: Peer, c: Call): Peer {
    if p.busy then p else p.(conn := Exec(p.conn, c), rough := p.rough || !KC.Smooth(KC.Other(c)))
  }

  /** A turn of one handler: the peer, the store, and the request let through, if one was. A body check
      that takes no byte leaves it in its loop. */
  ghost function TurnAt(ps: KR.Predicates, p: Peer, m: Store, io: Io, cb: seq<Call>): (Peer, Store, seq<Packet>) {
    if !p.busy then (p, m, [])
    else
      var r := p.conn.rbuf;
      match KR.VerdictOf(ps, r)
      case NeedMore => (p.(busy := false), m, [])
      case Reject => (p.(conn := Perform(p.conn, Hang, cb), busy := false), m, [])
      case Frame(n) => if 0 < n <= |r| then TakeAt(ps, p, m, n, io, cb) else (p, m, [])
  }

  ghost function TakeAt(ps: KR.Predicates, p: Peer, m: Store, n: nat, io: Io, cb: seq<Call>)
    : (Peer, Store, seq<Packet>)
    requires KR.VerdictOf(ps, p.conn.rbuf) == Frame(n) && 0 < n <= |p.conn.rbuf|
  {
    var r := p.conn.rbuf;
    var d := KR.Turn(ps, KR.Begin(r, m));
    var pk := ps.bodyCheck(r).packet.value;
    (Peer(PerformAll(p.conn.(rbuf := d.buf), KC.Says(d.out, [io]), cb), true, p.arrived, p.taken + [r[..n]],
          p.rough || io.Fatal?),
     d.store,
     if ps.shouldEcho(r[n..], pk) then [pk] else [])
  }

  ghost function Entries(id: Id, packets: seq<Packet>): seq<Entry> {
    seq(|packets|, i requires 0 <= i < |packets| => Entry(id, packets[i]))
  }

  ghost function Step(ps: KR.Predicates, x: Hub, op: Op): Hub {
    if op.Join? then
      if op.id in x.peers then x else x.(peers := x.peers[op.id := NEWCOMER])
    else if op.id !in x.peers then x
    else
      var p := x.peers[op.id];
      match op
      case Arrive(id, bytes, cb) => x.(peers := x.peers[id := ArriveAt(p, bytes, cb)])
      case Other(id, c) => x.(peers := x.peers[id := OtherAt(p, c)])
      case Turn(id, io, cb) =>
        var (p', m', asked) := TurnAt(ps, p, x.store, io, cb);
        Hub(x.peers[id := p'], m', x.log + Entries(id, asked))
  }

  ghost function Run(ps: KR.Predicates, x: Hub, ops: seq<Op>): Hub
    decreases |ops|
  {
    if ops == [] then x else Run(ps, Step(ps, x, ops[0]), ops[1..])
  }

  // ---- the order of all requests, and each connection's part in it ----

  ghost function Order(log: seq<Entry>): seq<Packet> {
    seq(|log|, i requires 0 <= i < |log| => log[i].packet)
  }

  /** The places of a connection in the order, first to last. */
  ghost function Places(log: seq<Entry>, id: Id): (r: seq<nat>)
    ensures forall k :: 0 <= k < |r| ==> r[k] < |log| && log[r[k]].id == id
    ensures forall j, k :: 0 <= j < k < |r| ==> r[j] < r[k]
  {
    if log == [] then []
    else
      var n := |log| - 1;
      Places(log[..n], id) + if log[n].id == id then [n] else []
  }

  ghost function RequestsOf(log: seq<Entry>, id: Id): seq<Packet> {
    var at := Places(log, id);
    seq(|at|, k requires 0 <= k < |at| => log[at[k]].packet)
  }

  /** The reply decodes to the map's answer to the `i`-th request of the order. */
  ghost predicate RepliedTo(m: Store, log: seq<Entry>, i: nat, reply: seq<Byte>)
    requires i < |log|
  {
    var q, p := DecodePacket(reply), log[i].packet;
    q.Some? && ReadsBack(q.value, Answer(MapAfter(m, Order(log), i), CommandOf(p)), p.head.opcode, p.head.requestId)
  }

  /** The replies are those to the first of the connection's own requests. */
  ghost predicate Replied(m: Store, log: seq<Entry>, id: Id, replies: seq<seq<Byte>>) {
    var at := Places(log, id);
    |replies| <= |at| && forall k :: 0 <= k < |replies| ==> RepliedTo(m, log, at[k], replies[k])
  }

  lemma PlacesSnoc(log: seq<Entry>, e: Entry, id: Id)
    ensures Places(log + [e], id) == Places(log, id) + if e.id == id then [|log|] else []
  {
    assert (log + [e])[..|log|] == log;
  }

  lemma RequestsSnoc(log: seq<Entry>, e: Entry, id: Id)
    ensures RequestsOf(log + [e], id) == RequestsOf(log, id) + if e.id == id then [e.packet] else []
  {
    PlacesSnoc(log, e, id);
    var at, all := Places(log, id), log + [e];
    assert forall k :: 0 <= k < |at| ==> all[at[k]] == log[at[k]];
  }

  lemma {:induction false} MapPrefix(m: Store, ps: seq<Packet>, p: Packet, i: nat)
    requires i <= |ps|
    ensures MapAfter(m, ps + [p], i) == MapAfter(m, ps, i)
  {
    if i > 0 { MapPrefix(m, ps, p, i - 1); }
  }

  lemma RepliedToSnoc(m: Store, log: seq<Entry>, e: Entry, i: nat, reply: seq<Byte>)
    requires i < |log|
    ensures RepliedTo(m, log + [e], i, reply) == RepliedTo(m, log, i, reply)
  {
    assert Order(log + [e]) == Order(log) + [e.packet];
    MapPrefix(m, Order(log), e.packet, i);
  }

  lemma RepliedSnoc(m: Store, log: seq<Entry>, e: Entry, id: Id, replies: seq<seq<Byte>>)
    requires Replied(m, log, id, replies)
    ensures Replied(m, log + [e], id, replies)
  {
    PlacesSnoc(log, e, id);
    var at := Places(log, id);
    forall k | 0 <= k < |replies| ensures RepliedTo(m, log + [e], Places(log + [e], id)[k], replies[k]) {
      assert RepliedTo(m, log, at[k], replies[k]);
      RepliedToSnoc(m, log, e, at[k], replies[k]);
    }
  }

  lemma RepliedMore(m: Store, log: seq<Entry>, e: Entry, replies: seq<seq<Byte>>, reply: seq<Byte>)
    requires Replied(m, log, e.id, replies) && |replies| == |Places(log, e.id)|
    requires RepliedTo(m, log + [e], |log|, reply)
    ensures Replied(m, log + [e], e.id, replies + [reply])
  {
    PlacesSnoc(log, e, e.id);
    RepliedSnoc(m, log, e, e.id, replies);
    var at, all := Places(log + [e], e.id), replies + [reply];
    forall k | 0 <= k < |all| ensures RepliedTo(m, log + [e], at[k], all[k]) {
      if k < |replies| { assert RepliedTo(m, log + [e], at[k], replies[k]); }
    }
  }

  // ---- the invariant ----

  ghost predicate Sane(s: Conn) {
    Good(s) && Settled(s) && (KC.Talking(s) || s.status != Connecting)
  }

  /** What has been taken and what the buffer still holds is the parse of all that arrived. */
  ghost predicate Caught(ps: KR.Predicates, p: Peer)
    requires KR.Sound(ps)
  {
    var f := KR.FramerOf(ps);
    var all, left := Parse(f, p.arrived), Parse(f, p.conn.rbuf);
    all.frames == p.taken + left.frames && all.rest == left.rest && all.rejected == left.rejected
  }

  ghost predicate Reading(ps: KR.Predicates, p: Peer)
    requires KR.Sound(ps)
  {
    var all := Parse(KR.FramerOf(ps), p.arrived);
    && p.taken <= all.frames
    && (p.busy || KC.Talking(p.conn) ==> Caught(ps, p))
    && (!p.busy && KC.Talking(p.conn) ==> KR.VerdictOf(ps, p.conn.rbuf).NeedMore?)
    && (!p.rough && !KC.Talking(p.conn) ==> !p.busy && all.rejected && p.taken == all.frames)
  }

  ghost predicate Answering(ps: KR.Predicates, m: Store, log: seq<Entry>, id: Id, p: Peer) {
    && KR.Packets(ps, p.taken) && RequestsOf(log, id) == KR.Answered(ps, p.taken)
    && Replied(m, log, id, p.conn.accepted)
    && (KC.Talking(p.conn) || !p.rough ==> |p.conn.accepted| == |Places(log, id)|)
  }

  ghost predicate PeerOk(ps: KR.Predicates, m: Store, log: seq<Entry>, id: Id, p: Peer)
    requires KR.Sound(ps)
  {
    Sane(p.conn) && Reading(ps, p) && Answering(ps, m, log, id, p)
  }

  ghost predicate StoreOk(m: Store, x: Hub) {
    x.store == MapAfter(m, Order(x.log), |x.log|) && Stored(x.store)
  }

  ghost predicate Inv(ps: KR.Predicates, m: Store, x: Hub)
    requires KR.Sound(ps)
  {
    StoreOk(m, x) && forall id :: OkAt(ps, m, x, id)
  }

  ghost predicate OkAt(ps: KR.Predicates, m: Store, x: Hub, id: Id)
    requires KR.Sound(ps)
  {
    if id in x.peers then PeerOk(ps, m, x.log, id, x.peers[id]) else Places(x.log, id) == []
  }

  // ---- one step ----

  lemma ArriveOk(ps: KR.Predicates, m: Store, log: seq<Entry>, id: Id, p: Peer, bytes: seq<Byte>, cb: seq<Call>)
    requires KR.Sound(ps) && PeerOk(ps, m, log, id, p)
    ensures PeerOk(ps, m, log, id, ArriveAt(p, bytes, cb))
  {
    var s := p.conn;
    if !p.busy && s.status == Connecting {
      if bytes == [] {
        CloseNowGood(s, cb);
        CloseKeepsInput(s, cb);
      } else {
        var f := KR.FramerOf(ps);
        ParseSplits(f, p.arrived, bytes);
        ParseSplits(f, s.rbuf, bytes);
        assert p.taken + [] == p.taken;
        var more := Parse(f, s.rbuf + bytes);
        assert [] + more.frames == more.frames;
      }
    }
  }

  lemma OtherSteps(s: Conn, c: Call)
    requires Sane(s) && KC.Usual(KC.Other(c))
    ensures var t := Exec(s, c);
            && Sane(t) && t.accepted == s.accepted
            && (KC.Talking(t) ==> KC.Talking(s) && t.rbuf == s.rbuf)
            && (KC.Smooth(KC.Other(c)) && KC.Talking(s) ==> KC.Talking(t))
  {
    ExecKeeps(s, c);
    var k := KC.Client(s, map[]);
    var d := KR.Dialogue(s.rbuf, map[], s.accepted, !KC.Talking(s), false);
    KC.OtherFollows(k, d, c);
  }

  lemma OtherOk(ps: KR.Predicates, m: Store, log: seq<Entry>, id: Id, p: Peer, c: Call)
    requires KR.Sound(ps) && PeerOk(ps, m, log, id, p) && KC.Usual(KC.Other(c))
    ensures PeerOk(ps, m, log, id, OtherAt(p, c))
  {
    OtherSteps(p.conn, c);
  }

  /** A handler's last turn: it has no whole request, or refuses what it sees. */
  lemma RestOk(ps: KR.Predicates, m: Store, log: seq<Entry>, id: Id, p: Peer, cb: seq<Call>)
    requires KR.Sound(ps) && PeerOk(ps, m, log, id, p) && p.busy
    ensures KR.VerdictOf(ps, p.conn.rbuf).NeedMore? ==> PeerOk(ps, m, log, id, p.(busy := false))
    ensures KR.VerdictOf(ps, p.conn.rbuf).Reject? ==>
              PeerOk(ps, m, log, id, p.(conn := Perform(p.conn, Hang, cb), busy := false))
  {
    var s := p.conn;
    assert p.taken + [] == p.taken;
    CloseNowGood(s, cb);
    assert Perform(s, Hang, cb) == CloseNow(s, cb);
    if KC.Talking(s) { CloseKeepsInput(s, cb); }
  }

  lemma AnsweredSnoc(ps: KR.Predicates, fs: seq<seq<Byte>>, f: seq<Byte>)
    requires KR.Packets(ps, fs) && ps.bodyCheck(f).packet.Some?
    ensures KR.Packets(ps, fs + [f])
    ensures var pk := ps.bodyCheck(f).packet.value;
            KR.Answered(ps, fs + [f]) == KR.Answered(ps, fs) + if ps.shouldEcho([], pk) then [pk] else []
  {
    var pk := ps.bodyCheck(f).packet.value;
    KR.PacketsAppend(ps, fs, [f]);
    assert KR.PacketsOf(ps, [f]) == [pk];
    KR.AnswerableAppend(ps, KR.PacketsOf(ps, fs), [pk]);
    assert [pk][1..] == [];
    assert KR.Answerable(ps, [pk]) == if ps.shouldEcho([], pk) then [pk] else [];
  }

  /** The frame taken next is the next one of the parse. */
  lemma TakeReads(ps: KR.Predicates, p: Peer, n: nat)
    requires KR.Sound(ps) && Caught(ps, p)
    requires KR.VerdictOf(ps, p.conn.rbuf) == Frame(n) && 0 < n <= |p.conn.rbuf|
    ensures var r := p.conn.rbuf;
            var q := p.(conn := p.conn.(rbuf := r[n..]), taken := p.taken + [r[..n]]);
            Caught(ps, q) && q.taken <= Parse(KR.FramerOf(ps), p.arrived).frames
  {
    var f, r := KR.FramerOf(ps), p.conn.rbuf;
    var more := Parse(f, r[n..]).frames;
    assert Parse(f, r) == Prepend(r[..n], Parse(f, r[n..]));
    Assoc(p.taken, [r[..n]], more);
  }

  /** What the connection does with the reply, or without one. */
  lemma TakeSpeaks(s: Conn, r: seq<Byte>, out: seq<seq<Byte>>, io: Io, cb: seq<Call>)
    requires Sane(s)
    ensures var t := PerformAll(s.(rbuf := r), KC.Says(out, [io]), cb);
            && Sane(t) && t.rbuf == r
            && (KC.Talking(t) ==> KC.Talking(s))
            && (KC.Talking(s) && !io.Fatal? ==> KC.Talking(t))
            && s.accepted <= t.accepted <= s.accepted + out
            && (KC.Talking(t) ==> t.accepted == s.accepted + out)
            && (!KC.Talking(s) ==> t.accepted == s.accepted)
  {
    var s1 := s.(rbuf := r);
    var acts := KC.Says(out, [io]);
    PerformAllGood(s1, acts, cb);
    KC.PerformAllInput(s1, acts, cb, r);
    assert s1.(rbuf := r) == s1;
    assert s.accepted <= s.accepted + out;
    if KC.Talking(s) { KC.SaysSpoken(s1, out, [io], cb); }
  }

  /** The request let through is answered as the map at its place in the order would. */
  lemma EchoReplies(m: Store, x: Hub, id: Id, pk: Packet)
    requires StoreOk(m, x)
    ensures var (m', q) := Echo(x.store, pk);
            var log := x.log + [Entry(id, pk)];
            RepliedTo(m, log, |x.log|, EncodePacket(q)) && m' == MapAfter(m, Order(log), |log|) && Stored(m')
  {
    EchoIsMap(x.store, pk);
    MapOn(m, x.log, Entry(id, pk));
    KC.FlowDecodes(Echo(x.store, pk).1);
  }

  lemma MapOn(m: Store, log: seq<Entry>, e: Entry)
    ensures MapAfter(m, Order(log + [e]), |log|) == MapAfter(m, Order(log), |log|)
    ensures MapAfter(m, Order(log + [e]), |log| + 1) == After(MapAfter(m, Order(log), |log|), CommandOf(e.packet))
  {
    assert Order(log + [e]) == Order(log) + [e.packet];
    MapPrefix(m, Order(log), e.packet, |log|);
  }

  lemma TakeUnasked(ps: KR.Predicates, m: Store, log: seq<Entry>, id: Id, p: Peer, q: Peer, f: seq<Byte>)
    requires Answering(ps, m, log, id, p) && ps.bodyCheck(f).packet.Some?
    requires !ps.shouldEcho([], ps.bodyCheck(f).packet.value)
    requires q.taken == p.taken + [f] && q.conn.accepted == p.conn.accepted
    requires KC.Talking(q.conn) || !q.rough ==> KC.Talking(p.conn)
    ensures Answering(ps, m, log, id, q)
  {
    AnsweredSnoc(ps, p.taken, f);
  }

  /** The reply, if there is one, has been accepted, or an error has come between. */
  ghost predicate Accepting(p: Peer, q: Peer, reply: seq<Byte>) {
    && (q.conn.accepted == p.conn.accepted || (KC.Talking(p.conn) && q.conn.accepted == p.conn.accepted + [reply]))
    && (KC.Talking(q.conn) || !q.rough ==> KC.Talking(p.conn) && q.conn.accepted == p.conn.accepted + [reply])
  }

  lemma TakeAsked(ps: KR.Predicates, m: Store, log: seq<Entry>, e: Entry, p: Peer, q: Peer, f: seq<Byte>,
                  reply: seq<Byte>)
    requires Answering(ps, m, log, e.id, p) && ps.bodyCheck(f).packet == Some(e.packet)
    requires ps.shouldEcho([], e.packet) && RepliedTo(m, log + [e], |log|, reply)
    requires q.taken == p.taken + [f] && Accepting(p, q, reply)
    ensures Answering(ps, m, log + [e], e.id, q)
  {
    AnsweredSnoc(ps, p.taken, f);
    RequestsSnoc(log, e, e.id);
    PlacesSnoc(log, e, e.id);
    RepliedSnoc(m, log, e, e.id, p.conn.accepted);
    if q.conn.accepted != p.conn.accepted { RepliedMore(m, log, e, p.conn.accepted, reply); }
  }

  /** What the frame `f`, once taken, asks of the log, the store and the connection. */
  ghost predicate Takes(ps: KR.Predicates, p: Peer, q: Peer, m: Store, f: seq<Byte>)
    requires ps.bodyCheck(f).packet.Some?
  {
    var pk := ps.bodyCheck(f).packet.value;
    && q.taken == p.taken + [f]
    && if ps.shouldEcho([], pk) then Accepting(p, q, EncodePacket(Echo(m, pk).1))
       else q.conn.accepted == p.conn.accepted && (KC.Talking(q.conn) || !q.rough ==> KC.Talking(p.conn))
  }

  ghost function AskedBy(ps: KR.Predicates, f: seq<Byte>): seq<Packet>
    requires ps.bodyCheck(f).packet.Some?
  {
    var pk := ps.bodyCheck(f).packet.value;
    if ps.shouldEcho([], pk) then [pk] else []
  }

  ghost function StoreBy(ps: KR.Predicates, m: Store, f: seq<Byte>): Store
    requires ps.bodyCheck(f).packet.Some?
  {
    var pk := ps.bodyCheck(f).packet.value;
    if ps.shouldEcho([], pk) then Echo(m, pk).0 else m
  }

  lemma TakeLogged(ps: KR.Predicates, m: Store, x: Hub, id: Id, p: Peer, q: Peer, f: seq<Byte>)
    requires StoreOk(m, x) && Answering(ps, m, x.log, id, p)
    requires ps.bodyCheck(f).packet.Some? && Takes(ps, p, q, x.store, f)
    ensures var log := x.log + Entries(id, AskedBy(ps, f));
            Answering(ps, m, log, id, q) && StoreOk(m, x.(store := StoreBy(ps, x.store, f), log := log))
  {
    var pk := ps.bodyCheck(f).packet.value;
    if ps.shouldEcho([], pk) {
      EchoReplies(m, x, id, pk);
      assert Entries(id, [pk]) == [Entry(id, pk)];
      TakeAsked(ps, m, x.log, Entry(id, pk), p, q, f, EncodePacket(Echo(x.store, pk).1));
    } else {
      assert x.log + Entries(id, []) == x.log;
      TakeUnasked(ps, m, x.log, id, p, q, f);
    }
  }

  /** A handler that takes a request. */
  lemma TakeKeepsReading(ps: KR.Predicates, p: Peer, m: Store, n: nat, io: Io, cb: seq<Call>)
    requires KR.Sound(ps) && Sane(p.conn) && Reading(ps, p) && p.busy
    requires KR.VerdictOf(ps, p.conn.rbuf) == Frame(n) && 0 < n <= |p.conn.rbuf|
    ensures var q := TakeAt(ps, p, m, n, io, cb).0;
            Sane(q.conn) && Reading(ps, q)
  {
    TakeReads(ps, p, n);
    TakeSpeaks(p.conn, p.conn.rbuf[n..], KR.Turn(ps, KR.Begin(p.conn.rbuf, m)).out, io, cb);
  }

  lemma TakeMeans(ps: KR.Predicates, p: Peer, m: Store, n: nat, io: Io, cb: seq<Call>)
    requires KR.Sound(ps) && Sane(p.conn) && (KC.Talking(p.conn) || p.rough)
    requires KR.VerdictOf(ps, p.conn.rbuf) == Frame(n) && 0 < n <= |p.conn.rbuf|
    ensures ps.bodyCheck(p.conn.rbuf[..n]).packet == ps.bodyCheck(p.conn.rbuf).packet
    ensures var (q, m', asked) := TakeAt(ps, p, m, n, io, cb);
            var f := p.conn.rbuf[..n];
            Takes(ps, p, q, m, f) && asked == AskedBy(ps, f) && m' == StoreBy(ps, m, f)
  {
    var r, was := p.conn.rbuf, p.conn.accepted;
    var out := KR.Turn(ps, KR.Begin(r, m)).out;
    TurnMeans(ps, r, m, n);
    TakeSpeaks(p.conn, r[n..], out, io, cb);
    if AskedBy(ps, r[..n]) == [] {
      assert was + out == was;
    } else {
      OneMore(was, TakeAt(ps, p, m, n, io, cb).0.conn.accepted, out[0]);
    }
  }

  lemma TakeAnswers(ps: KR.Predicates, m: Store, x: Hub, id: Id, p: Peer, n: nat, io: Io, cb: seq<Call>)
    requires KR.Sound(ps) && StoreOk(m, x) && Sane(p.conn) && Answering(ps, m, x.log, id, p)
    requires KR.VerdictOf(ps, p.conn.rbuf) == Frame(n) && 0 < n <= |p.conn.rbuf| && (KC.Talking(p.conn) || p.rough)
    ensures var (q, m', asked) := TakeAt(ps, p, x.store, n, io, cb);
            var log := x.log + Entries(id, asked);
            Answering(ps, m, log, id, q) && StoreOk(m, x.(store := m', log := log))
  {
    var q := TakeAt(ps, p, x.store, n, io, cb).0;
    TakeMeans(ps, p, x.store, n, io, cb);
    TakeLogged(ps, m, x, id, p, q, p.conn.rbuf[..n]);
  }

  /** A sound turn, in terms of its own frame. */
  lemma TurnMeans(ps: KR.Predicates, r: seq<Byte>, m: Store, n: nat)
    requires KR.Sound(ps) && KR.VerdictOf(ps, r) == Frame(n) && 0 < n <= |r|
    ensures ps.bodyCheck(r[..n]).packet == ps.bodyCheck(r).packet
    ensures var pk := ps.bodyCheck(r).packet.value;
            var d := KR.Turn(ps, KR.Begin(r, m));
            && ps.shouldEcho(r[n..], pk) == ps.shouldEcho([], pk)
            && d.buf == r[n..]
            && d.store == (if ps.shouldEcho([], pk) then Echo(m, pk).0 else m)
            && d.out == if ps.shouldEcho([], pk) then [EncodePacket(Echo(m, pk).1)] else []
  {
    assert KR.LocalAt(ps, r) && KR.EchoLocalAt(ps, r[n..], ps.bodyCheck(r).packet.value);
  }

  lemma OneMore(a: seq<seq<Byte>>, b: seq<seq<Byte>>, m: seq<Byte>)
    requires a <= b <= a + [m]
    ensures b == a || b == a + [m]
  {
    if |b| == |a| { assert b == a; } else { assert b == a + [m]; }
  }

  /** The other connections do not notice. */
  lemma StrangerOk(ps: KR.Predicates, m: Store, log: seq<Entry>, e: Entry, id: Id, p: Peer)
    requires KR.Sound(ps) && PeerOk(ps, m, log, id, p) && id != e.id
    ensures PeerOk(ps, m, log + [e], id, p)
  {
    PlacesSnoc(log, e, id);
    RequestsSnoc(log, e, id);
    RepliedSnoc(m, log, e, id, p.conn.accepted);
  }

  lemma TurnOk(ps: KR.Predicates, m: Store, x: Hub, id: Id, p: Peer, io: Io, cb: seq<Call>)
    requires KR.Sound(ps) && StoreOk(m, x) && PeerOk(ps, m, x.log, id, p)
    ensures var (q, m', asked) := TurnAt(ps, p, x.store, io, cb);
            var log := x.log + Entries(id, asked);
            && PeerOk(ps, m, log, id, q) && StoreOk(m, x.(store := m', log := log)) && |asked| <= 1
  {
    assert x.log + Entries(id, []) == x.log;
    if p.busy {
      var v := KR.VerdictOf(ps, p.conn.rbuf);
      assert SizedAt(KR.FramerOf(ps), p.conn.rbuf);
      if v.Frame? {
        TakeKeepsReading(ps, p, x.store, v.size, io, cb);
        TakeAnswers(ps, m, x, id, p, v.size, io, cb);
      } else {
        RestOk(ps, m, x.log, id, p, cb);
      }
    }
  }

  lemma StrangerAt(ps: KR.Predicates, m: Store, x: Hub, y: Hub, id: Id, asked: seq<Packet>, i: Id)
    requires KR.Sound(ps) && OkAt(ps, m, x, i) && i != id && |asked| <= 1
    requires y.log == x.log + Entries(id, asked) && (i in y.peers <==> i in x.peers)
    requires i in x.peers ==> y.peers[i] == x.peers[i]
    ensures OkAt(ps, m, y, i)
  {
    if asked == [] {
      assert y.log == x.log;
    } else {
      var e := Entry(id, asked[0]);
      assert y.log == x.log + [e];
      PlacesSnoc(x.log, e, i);
      if i in x.peers { StrangerOk(ps, m, x.log, e, i, x.peers[i]); }
    }
  }

  lemma TurnKeeps(ps: KR.Predicates, m: Store, x: Hub, id: Id, io: Io, cb: seq<Call>)
    requires KR.Sound(ps) && Inv(ps, m, x) && id in x.peers
    ensures Inv(ps, m, Step(ps, x, Turn(id, io, cb)))
  {
    var y := Step(ps, x, Turn(id, io, cb));
    assert OkAt(ps, m, x, id);
    forall i ensures OkAt(ps, m, y, i) {
      assert OkAt(ps, m, x, i);
      TurnKeepsAt(ps, m, x, id, io, cb, i);
    }
    TurnKeepsAt(ps, m, x, id, io, cb, id);
  }

  lemma TurnKeepsAt(ps: KR.Predicates, m: Store, x: Hub, id: Id, io: Io, cb: seq<Call>, i: Id)
    requires KR.Sound(ps) && StoreOk(m, x) && OkAt(ps, m, x, id) && OkAt(ps, m, x, i) && id in x.peers
    ensures var y := Step(ps, x, Turn(id, io, cb));
            OkAt(ps, m, y, i) && StoreOk(m, y)
  {
    var y := Step(ps, x, Turn(id, io, cb));
    TurnOk(ps, m, x, id, x.peers[id], io, cb);
    if i != id { StrangerAt(ps, m, x, y, id, TurnAt(ps, x.peers[id], x.store, io, cb).2, i); }
  }

  /** A step that lets no request through and changes one peer. */
  lemma PeerKeeps(ps: KR.Predicates, m: Store, x: Hub, id: Id, p: Peer)
    requires KR.Sound(ps) && Inv(ps, m, x) && PeerOk(ps, m, x.log, id, p)
    ensures Inv(ps, m, x.(peers := x.peers[id := p]))
  {
    var y := x.(peers := x.peers[id := p]);
    forall i ensures OkAt(ps, m, y, i) { assert OkAt(ps, m, x, i); }
  }

  lemma StepKeeps(ps: KR.Predicates, m: Store, x: Hub, op: Op)
    requires KR.Sound(ps) && Inv(ps, m, x) && Usual(op)
    ensures Inv(ps, m, Step(ps, x, op))
  {
    assert OkAt(ps, m, x, op.id);
    if op.id !in x.peers {
      JoinOk(ps, m, x.log, op.id);
      PeerKeeps(ps, m, x, op.id, NEWCOMER);
    } else {
      var p := x.peers[op.id];
      match op
      case Join(_) =>
      case Arrive(id, bytes, cb) =>
        ArriveOk(ps, m, x.log, id, p, bytes, cb);
        PeerKeeps(ps, m, x, id, ArriveAt(p, bytes, cb));
      case Other(id, c) =>
        OtherOk(ps, m, x.log, id, p, c);
        PeerKeeps(ps, m, x, id, OtherAt(p, c));
      case Turn(id, io, cb) => TurnKeeps(ps, m, x, id, io, cb);
    }
  }

  lemma JoinOk(ps: KR.Predicates, m: Store, log: seq<Entry>, id: Id)
    requires KR.Sound(ps) && Places(log, id) == []
    ensures PeerOk(ps, m, log, id, NEWCOMER)
  {
    assert KR.VerdictOf(ps, []).NeedMore?;
    assert KR.PacketsOf(ps, []) == [];
  }

  lemma {:induction false} RunKeeps(ps: KR.Predicates, m: Store, x: Hub, ops: seq<Op>)
    requires KR.Sound(ps) && Inv(ps, m, x) && forall i :: 0 <= i < |ops| ==> Usual(ops[i])
    ensures Inv(ps, m, Run(ps, x, ops))
    decreases |ops|
  {
    if ops != [] {
      assert Usual(ops[0]);
      StepKeeps(ps, m, x, ops[0]);
      RunKeeps(ps, m, Step(ps, x, ops[0]), ops[1..]);
    }
  }

  /** The handler of `KvConnection`, run on an object, takes exactly these turns. */
  lemma ObjectTurn(ps: KR.Predicates, p: Peer, m: Store, left: KR.Dialogue, r: KR.Progress, io: Io, cb: seq<Call>)
    requires KR.Sound(ps) && p.busy && Good(p.conn)
    requires KR.Open(left) && left.out == [] && KR.Advances(ps, KR.Begin(p.conn.rbuf, m), left, r)
    ensures var (q, m', _) := TurnAt(ps, p, m, io, cb);
            && m' == left.store && q.busy == r.Took?
            && PerformAll(p.conn.(rbuf := left.buf), KC.Reaction(r, [io], 0), cb) == q.conn.(rbuf := left.buf)
            && (q.conn.rbuf == left.buf || r.Refused?)
  {
    assert SizedAt(KR.FramerOf(ps), p.conn.rbuf);
    match r
    case Waits =>
    case Refused =>
      var s := p.conn.(rbuf := left.buf);
      KC.PerformInput(p.conn, Hang, cb, left.buf);
      assert PerformAll(Perform(s, Hang, cb), [Hang][1..], cb) == Perform(s, Hang, cb);
    case Took(reply) =>
      var out := KR.Said(reply);
      assert [] + out == out;
      assert KC.Says(out, [io]) == KC.Reaction(r, [io], 0);
      KC.PerformAllInput(p.conn, KC.Says(out, [io]), cb, left.buf);
  }

  // ---- what it means ----

  /** The bytes that reach connection `id`: those that arrive while it is open and its handler is not
      at work on earlier ones. */
  ghost function Heard(ps: KR.Predicates, x: Hub, ops: seq<Op>, id: Id): seq<Byte>
    decreases |ops|
  {
    if ops == [] then []
    else
      var op := ops[0];
      (if op.Arrive? && op.id == id && id in x.peers && !x.peers[id].busy && x.peers[id].conn.status == Connecting
       then op.bytes else [])
      + Heard(ps, Step(ps, x, op), ops[1..], id)
  }

  /** Nothing goes wrong for connection `id`: no end of stream, no I/O error, no request to close. */
  predicate Calm(ops: seq<Op>, id: Id) {
    forall i :: 0 <= i < |ops| && ops[i].id == id ==>
      match ops[i]
      case Join(_) => true
      case Arrive(_, bytes, _) => bytes != []
      case Turn(_, io, _) => !io.Fatal?
      case Other(_, c) => c.Activate? || (c.WriteFd? && !c.io.Fatal?)
  }

  lemma StepRecords(ps: KR.Predicates, x: Hub, op: Op, id: Id)
    ensures var y := Step(ps, x, op);
            && (id in y.peers <==> id in x.peers || op == Join(id))
            && (id !in x.peers && id in y.peers ==> y.peers[id].arrived == [] && !y.peers[id].rough)
            && (id in x.peers ==> y.peers[id].arrived == x.peers[id].arrived + Heard(ps, x, [op], id))
            && (id in x.peers && Calm([op], id) ==> y.peers[id].rough == x.peers[id].rough)
  {
    assert [op][1..] == [] && Heard(ps, Step(ps, x, op), [], id) == [];
    assert [op][0] == op;
    if id in x.peers { assert x.peers[id].arrived + [] == x.peers[id].arrived; }
    assert Calm([op], id) && op.id == id && op.Other? ==> KC.Smooth(KC.Other(op.call)) by {
      if Calm([op], id) && op.id == id && op.Other? { assert [op][0].id == id; }
    }
  }

  lemma {:induction false} RunRecords(ps: KR.Predicates, x: Hub, ops: seq<Op>, id: Id)
    ensures var y := Run(ps, x, ops);
            && (id in y.peers <==> id in x.peers || Join(id) in ops)
            && (id in y.peers ==>
                  y.peers[id].arrived == (if id in x.peers then x.peers[id].arrived else []) + Heard(ps, x, ops, id))
            && (id in y.peers && Calm(ops, id) && (id in x.peers ==> !x.peers[id].rough) ==> !y.peers[id].rough)
    decreases |ops|
  {
    if ops == [] {
      if id in x.peers { assert x.peers[id].arrived + [] == x.peers[id].arrived; }
    } else {
      var op, more := ops[0], ops[1..];
      var x1 := Step(ps, x, op);
      assert ops == [op] + more;
      StepRecords(ps, x, op, id);
      RunRecords(ps, x1, more, id);
      HeardCons(ps, x, ops, id);
      if Calm(ops, id) { CalmCons(ops, id); }
      if id in x.peers { Assoc(x.peers[id].arrived, Heard(ps, x, [op], id), Heard(ps, x1, more, id)); }
    }
  }

  lemma HeardCons(ps: KR.Predicates, x: Hub, ops: seq<Op>, id: Id)
    requires ops != []
    ensures Heard(ps, x, ops, id) == Heard(ps, x, [ops[0]], id) + Heard(ps, Step(ps, x, ops[0]), ops[1..], id)
    ensures id !in x.peers ==> Heard(ps, x, [ops[0]], id) == []
  {
    assert [ops[0]][1..] == [];
    assert Heard(ps, Step(ps, x, ops[0]), [], id) == [];
  }

  lemma CalmCons(ops: seq<Op>, id: Id)
    requires ops != [] && Calm(ops, id)
    ensures Calm([ops[0]], id) && Calm(ops[1..], id)
  {
    forall i | 0 <= i < |ops[1..]| ensures ops[1..][i] == ops[i + 1] {}
  }

  /** Between its handler's turns a connection takes every call made on it, and end of stream as a
      request to close; a refusal closes it too. */
  lemma CallsGetThrough(ps: KR.Predicates, x: Hub, id: Id, c: Call, io: Io, cb: seq<Call>)
    requires id in x.peers
    ensures var p := x.peers[id];
            && (!p.busy ==> Step(ps, x, Other(id, c)).peers[id].conn == Exec(p.conn, c))
            && (!p.busy && p.conn.status == Connecting ==>
                  Step(ps, x, Arrive(id, [], cb)).peers[id].conn == Exec(p.conn, Close(cb)))
            && (p.busy && KR.VerdictOf(ps, p.conn.rbuf).Reject? ==>
                  Step(ps, x, Turn(id, io, cb)).peers[id].conn == Exec(p.conn, Close(cb)))
  {
    var s := x.peers[id].conn;
    assert Exec(s, Close(cb)) == CloseNow(s, cb);
    assert Perform(s, Hang, cb) == CloseNow(s, cb);
  }

  // ---- a handler gets through what it has been given ----

  function TurnsOf(ops: seq<Op>, id: Id): nat {
    if ops == [] then 0 else (if ops[0].Turn? && ops[0].id == id then 1 else 0) + TurnsOf(ops[1..], id)
  }

  ghost predicate Working(x: Hub, id: Id, k: nat) {
    id in x.peers && (x.peers[id].busy ==> |x.peers[id].conn.rbuf| < k)
  }

  lemma TurnWorks(ps: KR.Predicates, p: Peer, m: Store, io: Io, cb: seq<Call>)
    requires KR.Sound(ps) && Sane(p.conn) && p.busy
    ensures var q := TurnAt(ps, p, m, io, cb).0;
            q.busy ==> |q.conn.rbuf| < |p.conn.rbuf|
  {
    var r := p.conn.rbuf;
    var v := KR.VerdictOf(ps, r);
    assert SizedAt(KR.FramerOf(ps), r);
    if v.Frame? {
      TurnMeans(ps, r, m, v.size);
      TakeSpeaks(p.conn, r[v.size..], KR.Turn(ps, KR.Begin(r, m)).out, io, cb);
    }
  }

  lemma StepWorks(ps: KR.Predicates, m: Store, x: Hub, op: Op, id: Id, k: nat)
    requires KR.Sound(ps) && Inv(ps, m, x) && Working(x, id, k) && (op.Arrive? ==> op.id != id)
    ensures Working(Step(ps, x, op), id, if op.Turn? && op.id == id && k > 0 then k - 1 else k)
  {
    assert OkAt(ps, m, x, id);
    if op.Turn? && op.id == id && x.peers[id].busy { TurnWorks(ps, x.peers[id], x.store, op.io, op.cb); }
  }

  /** In every interleaving a handler is through with what it was given after at most one turn more than
      it has bytes, and then has answered every whole request among them. */
  lemma {:induction false} HandlerFinishes(ps: KR.Predicates, m: Store, x: Hub, ops: seq<Op>, id: Id, k: nat)
    requires KR.Sound(ps) && Inv(ps, m, x) && Working(x, id, k) && TurnsOf(ops, id) >= k
    requires forall i :: 0 <= i < |ops| ==> Usual(ops[i]) && (ops[i].Arrive? ==> ops[i].id != id)
    ensures var y := Run(ps, x, ops);
            id in y.peers && !y.peers[id].busy
    decreases |ops|
  {
    if ops != [] {
      assert Usual(ops[0]) && (ops[0].Arrive? ==> ops[0].id != id);
      StepKeeps(ps, m, x, ops[0]);
      StepWorks(ps, m, x, ops[0], id, k);
      HandlerFinishes(ps, m, Step(ps, x, ops[0]), ops[1..], id,
                      if ops[0].Turn? && ops[0].id == id && k > 0 then k - 1 else k);
    }
  }

  // ---- one order ----

  /** A connection's part in the common order, `arrived` being the bytes that reached it: its requests
      stand there in the order in which it sent them, and its replies are the answers of the map at
      those places. If nothing went wrong every request let through has been answered, and once its
      handler has come to rest every request that arrived whole has been let through. */
  ghost predicate Served(ps: KR.Predicates, m: Store, log: seq<Entry>, id: Id, p: Peer, arrived: seq<Byte>, calm: bool)
    requires KR.Sound(ps)
  {
    var all := Parse(KR.FramerOf(ps), arrived);
    && p.taken <= all.frames && KR.Packets(ps, p.taken) && RequestsOf(log, id) == KR.Answered(ps, p.taken)
    && Replied(m, log, id, p.conn.accepted) && p.conn.sent + p.conn.wbuf == Flatten(p.conn.accepted)
    && (calm ==> |p.conn.accepted| == |Places(log, id)|)
    && (calm && !p.busy ==> p.taken == all.frames && (p.conn.status == Connecting <==> !all.rejected))
  }

  /** In every interleaving of any number of connections over one store, down to single requests, there
      is one order of all requests let through such that the store is a map that has carried them out
      in that order, and every connection that has joined is served along it. */
  lemma OneOrder(ps: KR.Predicates, m: Store, ops: seq<Op>)
    requires KR.Sound(ps) && Stored(m) && forall i :: 0 <= i < |ops| ==> Usual(ops[i])
    ensures var start := Hub(map[], m, []);
            var x := Run(ps, start, ops);
            && x.store == MapAfter(m, Order(x.log), |x.log|)
            && (forall id :: id in x.peers <==> Join(id) in ops)
            && forall id :: id in x.peers ==>
                 Served(ps, m, x.log, id, x.peers[id], Heard(ps, start, ops, id), Calm(ops, id))
  {
    var start := Hub(map[], m, []);
    var x := Run(ps, start, ops);
    RunKeeps(ps, m, start, ops);
    forall id: Id ensures id in x.peers <==> Join(id) in ops { RunRecords(ps, start, ops, id); }
    forall id | id in x.peers
      ensures Served(ps, m, x.log, id, x.peers[id], Heard(ps, start, ops, id), Calm(ops, id))
    {
      assert OkAt(ps, m, x, id);
      RunRecords(ps, start, ops, id);
      assert [] + Heard(ps, start, ops, id) == Heard(ps, start, ops, id);
      OkServed(ps, m, x.log, id, x.peers[id]);
    }
  }

  lemma OkServed(ps: KR.Predicates, m: Store, log: seq<Entry>, id: Id, p: Peer)
    requires KR.Sound(ps) && PeerOk(ps, m, log, id, p)
    ensures Served(ps, m, log, id, p, p.arrived, !p.rough)
  {
    assert p.taken + [] == p.taken;
  }
}
