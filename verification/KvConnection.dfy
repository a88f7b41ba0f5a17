/** The key-value server's handler installed on a connection (src/kv/kvserver.cpp): its replies on
    their way to the wire. */
module KvConnection {
  import opened Bytes
  import opened Streaming
  import opened Connection
  import opened ConnectionProofs
  import opened KvCodec
  import opened KvService
  import TcpConnection
  import KR = KvReceive

  // ---- what the handler does to its connection ----

  ghost function Says(out: seq<seq<Byte>>, ios: seq<Io>): seq<Act> {
    seq(|out|, i requires 0 <= i < |out| => Say(out[i], IoAt(ios, i)))
  }

  /** The replies in order, then the close if there is one. */
  ghost function ActsOf(e: KR.Dialogue, ios: seq<Io>): seq<Act> {
    Says(e.out, ios) + if e.closed then [Hang] else []
  }

  lemma SaysSnoc(out: seq<seq<Byte>>, m: seq<Byte>, ios: seq<Io>)
    ensures Says(out + [m], ios) == Says(out, ios) + [Say(m, IoAt(ios, |out|))]
  {}

  lemma {:induction false} PerformSnoc(s: Conn, acts: seq<Act>, a: Act, cb: seq<Call>)
    ensures PerformAll(s, acts + [a], cb) == Perform(PerformAll(s, acts, cb), a, cb)
    decreases |acts|
  {
    if acts == [] {
      assert (acts + [a])[1..] == [];
      assert PerformAll(Perform(s, a, cb), [], cb) == Perform(s, a, cb);
    } else {
      assert (acts + [a])[1..] == acts[1..] + [a];
      PerformSnoc(Perform(s, acts[0], cb), acts[1..], a, cb);
    }
  }

  // ---- nothing but the handler looks at the read buffer ----

  lemma InertInput(s: Conn, c: Call, r: seq<Byte>)
    requires s.status == Disconnected && TasksOk(s)
    ensures Exec(s.(rbuf := r), c) == Exec(s, c).(rbuf := r)
  {
    var t := s.(rbuf := r);
    match c
    case Activate =>
    case Write(m, io, cb) => assert WriteInThread(s, m, io, cb) == s && WriteInThread(t, m, io, cb) == t;
    case WriteFd(io, cb) => assert Flush(s, io, cb) == s && Flush(t, io, cb) == t;
    case Close(cb) => ClosedInput(s.(closeRequested := true), cb, r);
    case Read(input, ios, cb) => assert Receive(s, input, ios, cb) == s && Receive(t, input, ios, cb) == t;
    case ReadWith(bytes, taken, acts, cb) =>
      assert ReceiveWith(s, bytes, taken, acts, cb) == s && ReceiveWith(t, bytes, taken, acts, cb) == t;
    case Post(task) =>
    case RunTask(io, cb) =>
      if s.posted != [] {
        var s1, t1 := s.(posted := s.posted[1..]), t.(posted := t.posted[1..]);
        match s.posted[0]
        case WriteTask(m) => assert WriteInThread(s1, m, io, cb) == s1 && WriteInThread(t1, m, io, cb) == t1;
        case CloseTask => ClosedInput(s1, cb, r);
        case ActivateTask => assert ActivateInThread(s1) == s1 && ActivateInThread(t1) == t1;
      }
  }

  lemma ClosedInput(s: Conn, cb: seq<Call>, r: seq<Byte>)
    requires s.status == Disconnected
    ensures CloseInThread(s, cb) == s && CloseInThread(s.(rbuf := r), cb) == s.(rbuf := r)
  {}

  lemma {:induction false} InertInputs(s: Conn, cs: seq<Call>, r: seq<Byte>)
    requires s.status == Disconnected && TasksOk(s)
    ensures ExecAll(s.(rbuf := r), cs) == ExecAll(s, cs).(rbuf := r)
    decreases |cs|
  {
    if cs != [] {
      InertCall(s, cs[0]);
      InertInput(s, cs[0], r);
      InertInputs(Exec(s, cs[0]), cs[1..], r);
    }
  }

  lemma CloseInput(s: Conn, cb: seq<Call>, r: seq<Byte>)
    requires Good(s)
    ensures CloseInThread(s.(rbuf := r), cb) == CloseInThread(s, cb).(rbuf := r)
  {
    if s.status != Disconnected && s.wbuf == [] {
      InertInputs(s.(status := Disconnected, owned := false, fired := s.fired + 1), cb, r);
    }
  }

  lemma WriteInput(s: Conn, m: seq<Byte>, io: Io, cb: seq<Call>, r: seq<Byte>)
    requires Good(s)
    ensures WriteInThread(s.(rbuf := r), m, io, cb) == WriteInThread(s, m, io, cb).(rbuf := r)
  {
    CloseInput(s, cb, r);
    if s.status == Connecting && !(s.wbuf == [] && io.Fatal?) {
      var k := Direct(s, m, io);
      assert Direct(s.(rbuf := r), m, io) == k;
      assert Accepted(s.(rbuf := r), m, k) == Accepted(s, m, k).(rbuf := r);
    }
  }

  lemma PerformInput(s: Conn, a: Act, cb: seq<Call>, r: seq<Byte>)
    requires Good(s)
    ensures Perform(s.(rbuf := r), a, cb) == Perform(s, a, cb).(rbuf := r)
  {
    var s1 := s.(closeRequested := true);
    CloseInput(s1, cb, r);
    assert s1.(rbuf := r) == s.(rbuf := r).(closeRequested := true);
    match a
    case Say(m, io) =>
      WriteInput(s, m, io, cb, r);
      assert Perform(s, a, cb) == WriteNow(s, m, io, cb);
      assert Perform(s.(rbuf := r), a, cb) == WriteNow(s.(rbuf := r), m, io, cb);
    case Hang =>
      assert Perform(s, a, cb) == CloseNow(s, cb);
      assert Perform(s.(rbuf := r), a, cb) == CloseNow(s.(rbuf := r), cb);
  }

  lemma {:induction false} PerformAllInput(s: Conn, acts: seq<Act>, cb: seq<Call>, r: seq<Byte>)
    requires Good(s)
    ensures PerformAll(s.(rbuf := r), acts, cb) == PerformAll(s, acts, cb).(rbuf := r)
    decreases |acts|
  {
    if acts != [] {
      PerformGood(s, acts[0], cb);
      PerformInput(s, acts[0], cb, r);
      PerformAllInput(Perform(s, acts[0], cb), acts[1..], cb, r);
    }
  }

  // ---- a connection that is still talking ----

  ghost predicate Talking(s: Conn) {
    s.status == Connecting && s.owned && !s.closeRequested
  }

  /** A write either takes the message on and the connection goes on, or ends the connection. */
  lemma SayStep(s: Conn, m: seq<Byte>, io: Io, cb: seq<Call>)
    requires Good(s) && Talking(s)
    ensures var t := Perform(s, Say(m, io), cb);
            && t.accepted == (if Talking(t) then s.accepted + [m] else s.accepted)
            && (Talking(t) || t.status != Connecting)
            && (!io.Fatal? ==> Talking(t))
  {
    assert Perform(s, Say(m, io), cb) == WriteInThread(s, m, io, cb);
    if s.wbuf == [] && io.Fatal? {
      var s2 := s.(status := Disconnected, owned := false);
      assert CloseInThread(s, cb) == Fire(s2, cb);
      Inert(s2.(fired := s.fired + 1), cb);
    }
  }

  /** Replies are accepted in order, until an error ends the connection. */
  ghost predicate Spoken(s: Conn, t: Conn, out: seq<seq<Byte>>) {
    && Keeps(s, t)
    && t.accepted <= s.accepted + out
    && (Talking(t) || t.status != Connecting)
    && (Talking(t) ==> t.accepted == s.accepted + out)
  }

  lemma {:induction false} SaysSpoken(s: Conn, out: seq<seq<Byte>>, ios: seq<Io>, cb: seq<Call>)
    requires Good(s) && Talking(s)
    ensures Spoken(s, PerformAll(s, Says(out, ios), cb), out)
    ensures Patient(ios) ==> Talking(PerformAll(s, Says(out, ios), cb))
    decreases |out|
  {
    if out == [] {
      assert s.accepted + [] == s.accepted;
    } else {
      var before, m, n := out[..|out| - 1], out[|out| - 1], |out| - 1;
      assert out == before + [m];
      var t := PerformAll(s, Says(before, ios), cb);
      SaysSpoken(s, before, ios, cb);
      SaysSnoc(before, m, ios);
      PerformSnoc(s, Says(before, ios), Say(m, IoAt(ios, n)), cb);
      PerformGood(t, Say(m, IoAt(ios, n)), cb);
      KeepsOn(s, t, Perform(t, Say(m, IoAt(ios, n)), cb));
      assert s.accepted + before + [m] == s.accepted + out;
      assert s.accepted + before <= s.accepted + out;
      if Talking(t) { SayStep(t, m, IoAt(ios, n), cb); }
    }
  }

  lemma KeepsOn(s: Conn, t: Conn, u: Conn)
    requires Keeps(s, t) && Keeps(t, u)
    ensures Keeps(s, u)
  {}

  /** What a whole run of the handler leaves: all replies accepted in order unless an error ended
      the connection first, and the connection talking exactly if it is not to be closed. */
  lemma ActsSpoken(s: Conn, e: KR.Dialogue, ios: seq<Io>, cb: seq<Call>)
    requires Good(s) && Talking(s)
    ensures var t := PerformAll(s, ActsOf(e, ios), cb);
            && Spoken(s, t, e.out) && t.rbuf == s.rbuf
            && (Talking(t) ==> !e.closed)
            && (Patient(ios) ==> t.accepted == s.accepted + e.out && (Talking(t) <==> !e.closed))
  {
    var says := Says(e.out, ios);
    SaysSpoken(s, e.out, ios, cb);
    PerformAllInput(s, ActsOf(e, ios), cb, s.rbuf);
    assert s.(rbuf := s.rbuf) == s;
    if e.closed {
      var t := PerformAll(s, says, cb);
      PerformSnoc(s, says, Hang, cb);
      PerformGood(t, Hang, cb);
      KeepsOn(s, t, Perform(t, Hang, cb));
      if Talking(t) {
        CloseKeepsInput(t, cb);
        CloseNowGood(t, cb);
      }
    } else {
      assert says + [] == says;
    }
  }

  // ---- whole runs ----

  /** A key-value connection and the store behind it. */
  datatype Client = Client(conn: Conn, store: Store)

  /** Bytes, none at end of stream, or one of the other things the loop does with a connection:
      activate it, let it write, close it on an error, a hang-up or a missed heartbeat. */
  datatype Event = Arrive(bytes: seq<Byte>, ios: seq<Io>, cb: seq<Call>) | Other(call: Call)

  ghost predicate Usual(v: Event) {
    v.Other? ==> v.call.Activate? || v.call.WriteFd? || v.call.Close?
  }

  /** No error, no end of stream, no request to close. */
  ghost predicate Smooth(v: Event) {
    match v
    case Arrive(bytes, ios, _) => bytes != [] && Patient(ios)
    case Other(c) => c.Activate? || (c.WriteFd? && !c.io.Fatal?)
  }

  ghost function Step(ps: KR.Predicates, k: Client, v: Event): Client {
    match v
    case Other(c) => k.(conn := Exec(k.conn, c))
    case Arrive(bytes, ios, cb) =>
      if k.conn.status != Connecting || bytes == [] then k.(conn := Exec(k.conn, ReadWith(bytes, 0, [], cb)))
      else
        var all := k.conn.rbuf + bytes;
        var e := KR.Serve(ps, KR.Begin(all, k.store));
        KR.ServeSuffix(ps, KR.Begin(all, k.store));
        Client(Exec(k.conn, ReadWith(bytes, |all| - |e.buf|, ActsOf(e, ios), cb)), e.store)
  }

  ghost function Run(ps: KR.Predicates, k: Client, vs: seq<Event>): Client
    decreases |vs|
  {
    if vs == [] then k else Run(ps, Step(ps, k, vs[0]), vs[1..])
  }

  /** What an event is to the connection: itself, or a read of the same bytes; at end of stream, a
      request to close. */
  ghost predicate IsCall(v: Event, c: Call) {
    match v
    case Other(call) => c == call
    case Arrive(bytes, _, cb) => c.ReadWith? && c.bytes == bytes && c.cb == cb
  }

  /** A run of a key-value connection is a run of the connection, event by event, so all that is proved
      of those holds of it: what its writable events send, when it closes, what it watches for. */
  lemma {:induction false} RunIsRun(ps: KR.Predicates, k: Client, vs: seq<Event>) returns (cs: seq<Call>)
    ensures |cs| == |vs| && forall i :: 0 <= i < |vs| ==> IsCall(vs[i], cs[i])
    ensures Run(ps, k, vs).conn == ExecAll(k.conn, cs)
    decreases |vs|
  {
    if vs == [] {
      cs := [];
    } else {
      var c := StepIsCall(ps, k, vs[0]);
      var more := RunIsRun(ps, Step(ps, k, vs[0]), vs[1..]);
      cs := [c] + more;
      assert cs[1..] == more;
    }
  }

  lemma StepIsCall(ps: KR.Predicates, k: Client, v: Event) returns (c: Call)
    ensures IsCall(v, c) && Step(ps, k, v).conn == Exec(k.conn, c)
    ensures v.Arrive? && v.bytes == [] && k.conn.status == Connecting ==>
              Step(ps, k, v).conn == Exec(k.conn, Close(v.cb))
  {
    match v
    case Other(call) => c := call;
    case Arrive(bytes, ios, cb) =>
      if k.conn.status != Connecting || bytes == [] {
        c := ReadWith(bytes, 0, [], cb);
        assert Exec(k.conn, c) == ReceiveWith(k.conn, bytes, 0, [], cb);
        assert Exec(k.conn, Close(cb)) == CloseNow(k.conn, cb);
      } else {
        var all := k.conn.rbuf + bytes;
        var e := KR.Serve(ps, KR.Begin(all, k.store));
        KR.ServeSuffix(ps, KR.Begin(all, k.store));
        c := ReadWith(bytes, |all| - |e.buf|, ActsOf(e, ios), cb);
      }
  }

  function Chunks(vs: seq<Event>): seq<seq<Byte>> {
    if vs == [] then []
    else (if vs[0].Arrive? && vs[0].bytes != [] then [vs[0].bytes] else []) + Chunks(vs[1..])
  }

  /** While the connection talks it is where the dialogue is; once it does not, it has accepted
      the replies up to some point. */
  ghost predicate Follows(k: Client, d: KR.Dialogue) {
    && Good(k.conn) && Settled(k.conn) && (Talking(k.conn) || k.conn.status != Connecting)
    && k.conn.accepted <= d.out
    && (Talking(k.conn) ==>
          KR.Open(d) && k.conn.accepted == d.out && k.conn.rbuf == d.buf && k.store == d.store)
  }

  /** And without errors it never stops short of the dialogue. */
  ghost predicate Abreast(k: Client, d: KR.Dialogue) {
    k.conn.accepted == d.out && k.store == d.store && (Talking(k.conn) <==> !d.closed)
  }

  lemma ArriveStep(ps: KR.Predicates, k: Client, bytes: seq<Byte>, ios: seq<Io>, cb: seq<Call>)
    requires k.conn.status == Connecting && bytes != []
    ensures var e := KR.Serve(ps, KR.Begin(k.conn.rbuf + bytes, k.store));
            Step(ps, k, Arrive(bytes, ios, cb))
            == Client(PerformAll(k.conn.(rbuf := e.buf), ActsOf(e, ios), cb), e.store)
  {
    var all := k.conn.rbuf + bytes;
    var e := KR.Serve(ps, KR.Begin(all, k.store));
    KR.ServeSuffix(ps, KR.Begin(all, k.store));
    var n := |all| - |e.buf|;
    assert Exec(k.conn, ReadWith(bytes, n, ActsOf(e, ios), cb))
        == ReceiveWith(k.conn, bytes, n, ActsOf(e, ios), cb);
  }

  lemma ArriveFollows(ps: KR.Predicates, k: Client, d: KR.Dialogue, bytes: seq<Byte>, ios: seq<Io>, cb: seq<Call>)
    requires KR.Sound(ps) && Follows(k, d) && bytes != [] && Talking(k.conn)
    ensures var k' := Step(ps, k, Arrive(bytes, ios, cb));
            var d' := KR.Receive(ps, d, bytes);
            Follows(k', d') && (Patient(ios) ==> Abreast(k', d'))
  {
    var st := KR.Begin(d.buf + bytes, d.store);
    var e := KR.Serve(ps, st);
    ArriveStep(ps, k, bytes, ios, cb);
    KR.ServeParses(ps, st);
    KR.ReceiveAfresh(ps, d, bytes);
    ActsSpoken(k.conn.(rbuf := e.buf), e, ios, cb);
  }

  lemma QuietFollows(ps: KR.Predicates, k: Client, d: KR.Dialogue, bytes: seq<Byte>, ios: seq<Io>, cb: seq<Call>)
    requires Follows(k, d) && (bytes == [] || !Talking(k.conn))
    ensures var k' := Step(ps, k, Arrive(bytes, ios, cb));
            && Follows(k', d) && (bytes != [] ==> k' == k)
  {
    var s := k.conn;
    var c := ReadWith(bytes, 0, [], cb);
    assert Exec(s, c) == ReceiveWith(s, bytes, 0, [], cb);
    if Talking(s) {
      CloseNowGood(s, cb);
      CloseKeepsInput(s, cb);
    }
  }

  lemma OtherFollows(k: Client, d: KR.Dialogue, c: Call)
    requires Follows(k, d) && Usual(Other(c))
    ensures Follows(k.(conn := Exec(k.conn, c)), d)
    ensures Smooth(Other(c)) && Abreast(k, d) ==> Abreast(k.(conn := Exec(k.conn, c)), d)
  {
    var s := k.conn;
    ExecKeeps(s, c);
    match c
    case Activate => assert Exec(s, c) == s || Exec(s, c) == s.(events := {ReadEvents, CloseEvents});
    case Close(cb) =>
      assert Exec(s, c) == CloseNow(s, cb);
      CloseNowGood(s, cb);
      if Talking(s) { CloseKeepsInput(s, cb); }
    case WriteFd(io, cb) =>
      assert Exec(s, c) == Flush(s, io, cb);
      FlushTalks(s, io, cb);
    case _ => assert false;
  }

  lemma FlushTalks(s: Conn, io: Io, cb: seq<Call>)
    requires Good(s) && Settled(s) && (Talking(s) || s.status != Connecting)
    ensures var t := Flush(s, io, cb);
            && t.accepted == s.accepted && (Talking(t) || t.status != Connecting)
            && (Talking(t) ==> Talking(s) && t.rbuf == s.rbuf)
            && (!io.Fatal? && Talking(s) ==> Talking(t))
  {
    if s.status != Disconnected {
      if io.Fatal? {
        CloseNowGood(s, cb);
        AfterFlushGood(CloseNow(s, cb), cb);
        if Talking(s) { CloseKeepsInput(s, cb); }
      } else {
        var n := if io.Moved? then Min(io.n, |s.wbuf|) else 0;
        HandedFlushed(s, n);
        assert s.sent + [] == s.sent && s.wbuf[0..] == s.wbuf;
        AfterFlushGood(Handed(s, n), cb);
      }
    }
  }

  lemma StepFollows(ps: KR.Predicates, k: Client, d: KR.Dialogue, v: Event)
    requires KR.Sound(ps) && Follows(k, d) && Usual(v)
    ensures var d' := KR.ReceiveAll(ps, d, Chunks([v]));
            Follows(Step(ps, k, v), d') && (Smooth(v) && Abreast(k, d) ==> Abreast(Step(ps, k, v), d'))
  {
    match v
    case Other(c) =>
      assert Chunks([v]) == [];
      OtherFollows(k, d, c);
    case Arrive(bytes, ios, cb) =>
      if bytes == [] {
        assert Chunks([v]) == [];
        QuietFollows(ps, k, d, bytes, ios, cb);
      } else {
        assert Chunks([v]) == [bytes];
        var d' := KR.Receive(ps, d, bytes);
        assert KR.ReceiveAll(ps, d, [bytes]) == KR.ReceiveAll(ps, d', [bytes][1..]);
        if Talking(k.conn) {
          ArriveFollows(ps, k, d, bytes, ios, cb);
        } else {
          QuietFollows(ps, k, d, bytes, ios, cb);
          ReceiveGrows(ps, d, bytes);
        }
      }
  }

  lemma ReceiveGrows(ps: KR.Predicates, d: KR.Dialogue, bytes: seq<Byte>)
    ensures d.out <= KR.Receive(ps, d, bytes).out
  {
    if KR.Open(d) { KR.ReceiveAfresh(ps, d, bytes); }
  }

  lemma {:induction false} ReceiveAllAppend(ps: KR.Predicates, d: KR.Dialogue, a: seq<seq<Byte>>, b: seq<seq<Byte>>)
    ensures KR.ReceiveAll(ps, d, a + b) == KR.ReceiveAll(ps, KR.ReceiveAll(ps, d, a), b)
    decreases |a|
  {
    if a == [] {
      assert a + b == b;
    } else {
      assert (a + b)[1..] == a[1..] + b;
      ReceiveAllAppend(ps, KR.Receive(ps, d, a[0]), a[1..], b);
    }
  }

  lemma {:induction false} RunFollows(ps: KR.Predicates, k: Client, d: KR.Dialogue, vs: seq<Event>)
    requires KR.Sound(ps) && Follows(k, d) && forall i :: 0 <= i < |vs| ==> Usual(vs[i])
    ensures var d' := KR.ReceiveAll(ps, d, Chunks(vs));
            && Follows(Run(ps, k, vs), d')
            && (Abreast(k, d) && (forall i :: 0 <= i < |vs| ==> Smooth(vs[i])) ==> Abreast(Run(ps, k, vs), d'))
    decreases |vs|
  {
    if vs != [] {
      assert Usual(vs[0]);
      StepFollows(ps, k, d, vs[0]);
      assert Chunks([vs[0]]) + Chunks(vs[1..]) == Chunks(vs);
      ReceiveAllAppend(ps, d, Chunks([vs[0]]), Chunks(vs[1..]));
      RunFollows(ps, Step(ps, k, vs[0]), KR.ReceiveAll(ps, d, Chunks([vs[0]])), vs[1..]);
    }
  }

  /** The replies of the key-value server reach the wire in order, whatever the pieces its requests
      arrive in and however its writes are cut short: those accepted are the first ones, and, but
      for an error or a request to close, exactly all, that the dialogue over the whole stream
      read at once gives; store and closing are that dialogue's too. */
  lemma WireIsDialogue(ps: KR.Predicates, m: Store, vs: seq<Event>)
    requires KR.Sound(ps) && forall i :: 0 <= i < |vs| ==> Usual(vs[i])
    ensures var k := Run(ps, Client(Fresh(true), m), vs);
            var whole := KR.Serve(ps, KR.Begin(Flatten(Chunks(vs)), m));
            && k.conn.sent + k.conn.wbuf == Flatten(k.conn.accepted) && k.conn.accepted <= whole.out
            && ((forall i :: 0 <= i < |vs| ==> Smooth(vs[i])) ==>
                  && k.conn.accepted == whole.out && k.store == whole.store
                  && (k.conn.status == Connecting <==> !whole.closed)
                  && (!whole.closed ==> k.conn.rbuf == whole.buf))
  {
    var d := KR.Begin([], m);
    RunFollows(ps, Client(Fresh(true), m), d, vs);
    KR.SplittingIrrelevant(ps, d, Chunks(vs));
    assert d.(buf := [] + Flatten(Chunks(vs))) == KR.Begin(Flatten(Chunks(vs)), m);
  }

  /** The `i`-th reply decodes to the map's answer to the `i`-th request, under its opcode and id. */
  ghost predicate RepliedAt(m: Store, requests: seq<Packet>, replies: seq<seq<Byte>>, i: nat)
    requires |replies| == |requests| && i < |requests|
  {
    var q, p := DecodePacket(replies[i]), requests[i];
    q.Some? && ReadsBack(q.value, Answer(MapAfter(m, requests, i), CommandOf(p)), p.head.opcode, p.head.requestId)
  }

  lemma FlowDecodes(q: Packet)
    requires q.head.bodyLength == |q.body|
    ensures DecodePacket(EncodePacket(q)) == Some(q)
  {
    PacketRoundTrip(q, []);
    assert EncodePacket(q) + [] == EncodePacket(q);
  }

  /** From bytes to bytes: without errors, the packets on the wire are a sequential map's answers to
      the requests framed in the stream, one for each that is to be answered and in their order,
      and the store is that map. */
  lemma RepliesAreMapAnswers(ps: KR.Predicates, m: Store, vs: seq<Event>)
    requires KR.Sound(ps) && Stored(m) && forall i :: 0 <= i < |vs| ==> Smooth(vs[i])
    ensures var k := Run(ps, Client(Fresh(true), m), vs);
            var p := Parse(KR.FramerOf(ps), Flatten(Chunks(vs)));
            && KR.Packets(ps, p.frames)
            && var requests := KR.Answered(ps, p.frames);
            && k.conn.sent + k.conn.wbuf == Flatten(k.conn.accepted)
            && k.store == MapAfter(m, requests, |requests|) && |k.conn.accepted| == |requests|
            && forall i :: 0 <= i < |requests| ==> RepliedAt(m, requests, k.conn.accepted, i)
  {
    var k := Run(ps, Client(Fresh(true), m), vs);
    var st := KR.Begin(Flatten(Chunks(vs)), m);
    var p := Parse(KR.FramerOf(ps), Flatten(Chunks(vs)));
    forall i | 0 <= i < |vs| ensures Usual(vs[i]) { assert Smooth(vs[i]); }
    WireIsDialogue(ps, m, vs);
    KR.ServeParses(ps, st);
    var requests := KR.Answered(ps, p.frames);
    ServiceIsMap(m, requests);
    var qs := EchoAll(m, requests).1;
    assert k.conn.accepted == KR.Flows(qs) by { assert [] + KR.Flows(qs) == KR.Flows(qs); }
    forall i | 0 <= i < |requests| ensures RepliedAt(m, requests, k.conn.accepted, i) {
      assert AnsweredAt(m, requests, qs, i);
      FlowDecodes(qs[i]);
    }
  }

  // ---- the handler as it runs ----

  /** The connection has done what the dialogue so far asks of it. */
  ghost predicate Handled(s: Conn, t: Conn, d: KR.Dialogue, ios: seq<Io>, cb: seq<Call>) {
    t == PerformAll(s.(rbuf := t.rbuf), ActsOf(d, ios), cb) && (KR.Open(d) ==> t.rbuf == d.buf)
  }

  lemma Consumes(s: Conn, acts: seq<Act>, cb: seq<Call>, t: Conn, r: seq<Byte>)
    requires Good(s) && t == PerformAll(s.(rbuf := t.rbuf), acts, cb)
    ensures t.(rbuf := r) == PerformAll(s.(rbuf := r), acts, cb)
  {
    PerformAllInput(s, acts, cb, t.rbuf);
    PerformAllInput(s, acts, cb, r);
  }

  /** What the handler does to its connection after a turn. */
  function Reaction(r: KR.Progress, ios: seq<Io>, n: nat): seq<Act> {
    match r
    case Refused => [Hang]
    case Took(Some(reply)) => [Say(reply, if n < |ios| then ios[n] else Retry)]
    case _ => []
  }

  /** The dialogue after a turn that has left `left`. */
  ghost function Next(d: KR.Dialogue, left: KR.Dialogue, r: KR.Progress): KR.Dialogue {
    match r
    case Waits => d
    case Refused => d.(closed := true)
    case Stuck => d.(stuck := true)
    case Took(reply) => left.(out := d.out + KR.Said(reply))
  }

  lemma NextServes(ps: KR.Predicates, d: KR.Dialogue, left: KR.Dialogue, r: KR.Progress)
    requires KR.Open(d) && KR.Open(left) && KR.Advances(ps, KR.Begin(d.buf, d.store), left, r)
    ensures var d' := Next(d, left, r);
            && KR.Serve(ps, d) == (if r.Took? then KR.Serve(ps, d') else d')
            && d'.store == left.store && (KR.Open(d') ==> d'.buf == left.buf)
            && (r.Took? ==> KR.Open(d') && |d'.buf| < |d.buf|)
  {
    if r.Took? {
      assert [] + KR.Said(r.reply) == KR.Said(r.reply);
      assert KR.Turn(ps, d).out == d.out + KR.Turn(ps, KR.Begin(d.buf, d.store)).out;
      assert KR.Turn(ps, d) == Next(d, left, r);
    }
  }

  lemma NextActs(d: KR.Dialogue, left: KR.Dialogue, r: KR.Progress, ios: seq<Io>)
    requires KR.Open(d) && KR.Open(left)
    ensures ActsOf(Next(d, left, r), ios) == ActsOf(d, ios) + Reaction(r, ios, |d.out|)
  {}

  lemma {:induction false} PerformAppend(s: Conn, a: seq<Act>, b: seq<Act>, cb: seq<Call>)
    ensures PerformAll(s, a + b, cb) == PerformAll(PerformAll(s, a, cb), b, cb)
    decreases |a|
  {
    if a == [] {
      assert a + b == b;
    } else {
      assert (a + b)[1..] == a[1..] + b;
      PerformAppend(Perform(s, a[0], cb), a[1..], b, cb);
    }
  }

  /** Having taken bytes off the buffer, the handler goes on acting. */
  lemma HandledOn(s: Conn, t: Conn, acts: seq<Act>, more: seq<Act>, r: seq<Byte>, cb: seq<Call>)
    requires Good(s) && Good(t) && t == PerformAll(s.(rbuf := t.rbuf), acts, cb)
    ensures var u := PerformAll(t.(rbuf := r), more, cb);
            u.rbuf == r && u == PerformAll(s.(rbuf := r), acts + more, cb)
  {
    Consumes(s, acts, cb, t, r);
    PerformAppend(s.(rbuf := r), acts, more, cb);
    PerformAllInput(t, more, cb, r);
  }

  /** One turn of the key-value handler: the next request is taken off the connection's buffer and
      answered on the connection, or the connection is closed, or nothing is to be done. */
  method Turn(ps: KR.Predicates, conn: TcpConnection.TcpConnection, kv: KvService, n: nat, ios: seq<Io>, cb: seq<Call>)
    returns (r: KR.Progress, ghost left: KR.Dialogue)
    requires conn.Valid()
    modifies conn, conn.readBuffer, conn.writeBuffer, conn.readBuffer.data, conn.writeBuffer.data, kv.store
    ensures conn.Valid() && conn.Private() && kv.store.mp == left.store && KR.Open(left) && left.out == []
    ensures KR.Advances(ps, KR.Begin(old(conn.View()).rbuf, old(kv.store.mp)), left, r)
    ensures conn.View() == PerformAll(old(conn.View()).(rbuf := left.buf), Reaction(r, ios, n), cb)
  {
    r := KR.NextRequest(ps, conn.readBuffer, kv);
    left := KR.Begin(conn.readBuffer.Contents(), kv.store.mp);
    conn.PerformAll(Reaction(r, ios, n), cb);
  }

  /** The key-value handler: on return the connection has accepted or refused the dialogue's replies
      in order, has been closed if the dialogue was, and is left with the bytes the dialogue left. */
  method OnMessage(ps: KR.Predicates, conn: TcpConnection.TcpConnection, kv: KvService, ios: seq<Io>, cb: seq<Call>)
    returns (stuck: bool)
    requires conn.Valid()
    modifies conn, conn.readBuffer, conn.writeBuffer, conn.readBuffer.data, conn.writeBuffer.data, kv.store
    ensures conn.Valid() && conn.Private()
    ensures var e := KR.Serve(ps, KR.Begin(old(conn.View()).rbuf, old(kv.store.mp)));
            stuck == e.stuck && kv.store.mp == e.store && Handled(old(conn.View()), conn.View(), e, ios, cb)
  {
    ghost var s := conn.View();
    ghost var d := KR.Begin(s.rbuf, kv.store.mp);
    ghost var e := KR.Serve(ps, d);
    var n, again := 0, true;
    stuck := false;
    assert ActsOf(d, ios) == [];
    while again
      invariant conn.Valid() && conn.Private() && n == |d.out| && kv.store.mp == d.store
      invariant Handled(s, conn.View(), d, ios, cb)
      invariant if again then KR.Open(d) && KR.Serve(ps, d) == e && !stuck else d == e && stuck == d.stuck
      decreases again, |d.buf|
    {
      ghost var t := conn.View();
      var r, left := Turn(ps, conn, kv, n, ios, cb);
      NextServes(ps, d, left, r);
      NextActs(d, left, r, ios);
      HandledOn(s, t, ActsOf(d, ios), Reaction(r, ios, n), left.buf, cb);
      d := Next(d, left, r);
      again, stuck := r.Took?, r.Stuck?;
      if r.Took? && r.reply.Some? {
        n := n + 1;
      }
    }
  }

  /** A readable event of a key-value connection: the machine's step, up to the bytes a closed
      connection will never look at. */
  method Read(ps: KR.Predicates, conn: TcpConnection.TcpConnection, kv: KvService, bytes: seq<Byte>, ios: seq<Io>,
              cb: seq<Call>)
    returns (stuck: bool)
    requires conn.Valid() && conn.Deliverable(Data(bytes))
    modifies conn, conn.readBuffer, conn.writeBuffer, conn.readBuffer.data, conn.writeBuffer.data, kv.store
    ensures conn.Valid() && conn.Private()
    ensures var k := Step(ps, Client(old(conn.View()), old(kv.store.mp)), Arrive(bytes, ios, cb));
            && kv.store.mp == k.store && conn.View() == k.conn.(rbuf := conn.View().rbuf)
            && (KR.Open(KR.Serve(ps, KR.Begin(old(conn.View()).rbuf + bytes, old(kv.store.mp)))) ==>
                  conn.View() == k.conn)
  {
    stuck := false;
    ghost var s, m := conn.View(), kv.store.mp;
    assert Exec(s, ReadWith(bytes, 0, [], cb)) == ReceiveWith(s, bytes, 0, [], cb);
    if conn.status != Connecting {
      return;
    }
    var n := conn.Fill(bytes);
    if n == 0 {
      assert s.rbuf + bytes == s.rbuf;
      conn.Close(cb);
    } else {
      stuck := OnMessage(ps, conn, kv, ios, cb);
      HandledIsStep(ps, s, m, bytes, conn.View(), ios, cb);
    }
  }

  lemma HandledIsStep(ps: KR.Predicates, s: Conn, m: Store, bytes: seq<Byte>, t: Conn, ios: seq<Io>, cb: seq<Call>)
    requires Good(s) && s.status == Connecting && bytes != []
    requires Handled(s.(rbuf := s.rbuf + bytes), t, KR.Serve(ps, KR.Begin(s.rbuf + bytes, m)), ios, cb)
    ensures var k := Step(ps, Client(s, m), Arrive(bytes, ios, cb));
            var e := KR.Serve(ps, KR.Begin(s.rbuf + bytes, m));
            k.store == e.store && t == k.conn.(rbuf := t.rbuf) && (KR.Open(e) ==> t == k.conn)
  {
    var e := KR.Serve(ps, KR.Begin(s.rbuf + bytes, m));
    ArriveStep(ps, Client(s, m), bytes, ios, cb);
    PerformAllInput(s, ActsOf(e, ios), cb, t.rbuf);
    PerformAllInput(s, ActsOf(e, ios), cb, e.buf);
  }
}
