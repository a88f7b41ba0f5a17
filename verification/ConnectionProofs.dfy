/** What every run of a connection keeps. */
module ConnectionProofs {
  import opened Bytes
  import opened Streaming
  import opened Connection

  /** Holds at every instant, also while the close callback is running. */
  ghost predicate Good(s: Conn) {
    && s.sent + s.wbuf == Flatten(s.accepted)
    && s.fired == (if s.status == Disconnected then 1 else 0)
    && (s.status == Disconnected ==> s.wbuf == [])
    && (s.status == Disconnecting ==> s.wbuf != [] && s.closeRequested)
    && TasksOk(s)
  }

  ghost predicate TasksOk(s: Conn) {
    CloseTask in s.posted ==> s.closeRequested
  }

  function Rank(st: Status): nat {
    match st case Connecting => 0 case Disconnecting => 1 case Disconnected => 2
  }

  /** Nothing that a run records is ever taken back. */
  ghost predicate Forward(s: Conn, t: Conn) {
    && Rank(s.status) <= Rank(t.status)
    && (s.closeRequested ==> t.closeRequested)
    && s.sent <= t.sent
    && s.accepted <= t.accepted
    && (s.status != Connecting ==> t.accepted == s.accepted)
  }

  /** Between calls, a connection is registered with its loop until it is closed. */
  ghost predicate Settled(s: Conn) {
    s.owned <==> s.status != Disconnected
  }

  /** The loop watches for writability exactly while bytes are waiting. */
  ghost predicate InterestOk(s: Conn) {
    s.status != Disconnected ==> (WriteEvents in s.events <==> s.wbuf != [])
  }

  /** A close request on a connection that still runs is queued on its loop. */
  ghost predicate Heeded(s: Conn) {
    s.owned && s.closeRequested && s.status == Connecting ==> CloseTask in s.posted
  }

  /** While it is open, the loop watches for input and for the peer closing. */
  ghost predicate Listening(s: Conn) {
    s.status == Connecting ==> ReadEvents in s.events && CloseEvents in s.events
  }

  ghost predicate Keeps(s: Conn, t: Conn) {
    && Good(t)
    && Forward(s, t)
    && (Settled(s) ==> Settled(t))
    && (Heeded(s) ==> Heeded(t))
    && (InterestOk(s) ==> InterestOk(t))
    && (Listening(s) ==> Listening(t))
  }

  /** The call resets the interest mask to reading and closing. */
  ghost predicate Activates(s: Conn, c: Call) {
    && s.status == Connecting
    && ((c.Activate? && s.owned) || (c.RunTask? && s.posted != [] && s.posted[0].ActivateTask?))
  }

  /** Only the bookkeeping of close and cross-thread requests differs. */
  ghost predicate SameButRequests(s: Conn, t: Conn) {
    && t == s.(closeRequested := t.closeRequested, posted := t.posted)
    && (s.closeRequested ==> t.closeRequested)
  }

  // ---- a closed connection ----

  lemma InertCall(s: Conn, c: Call)
    requires s.status == Disconnected && TasksOk(s)
    ensures SameButRequests(s, Exec(s, c)) && TasksOk(Exec(s, c))
  {
    match c
    case Activate =>
    case Write(m, io, cb) => assert WriteInThread(s, m, io, cb) == s;
    case WriteFd(io, cb) => assert Flush(s, io, cb) == s;
    case Close(cb) =>
      var s1 := s.(closeRequested := true);
      assert CloseInThread(s1, cb) == s1;
    case Read(input, ios, cb) => assert Receive(s, input, ios, cb) == s;
    case ReadWith(bytes, taken, acts, cb) => assert ReceiveWith(s, bytes, taken, acts, cb) == s;
    case Post(task) =>
    case RunTask(io, cb) =>
      if s.posted != [] {
        var s1 := s.(posted := s.posted[1..]);
        match s.posted[0]
        case WriteTask(m) => assert WriteInThread(s1, m, io, cb) == s1;
        case CloseTask => assert CloseInThread(s1, cb) == s1;
        case ActivateTask => assert ActivateInThread(s1) == s1;
      }
  }

  /** Once closed, a connection does nothing more, whatever is called on it. */
  lemma {:induction false} Inert(s: Conn, cs: seq<Call>)
    requires s.status == Disconnected && TasksOk(s)
    ensures SameButRequests(s, ExecAll(s, cs)) && TasksOk(ExecAll(s, cs))
    decreases |cs|
  {
    if cs != [] {
      InertCall(s, cs[0]);
      Inert(Exec(s, cs[0]), cs[1..]);
    }
  }

  // ---- each step ----

  lemma CloseInThreadGood(s: Conn, cb: seq<Call>)
    requires Good(s) && (s.closeRequested || s.wbuf == [])
    ensures Keeps(s, CloseInThread(s, cb))
    ensures CloseInThread(s, cb).wbuf == s.wbuf
    ensures CloseInThread(s, cb).status != Connecting
  {
    if s.status != Disconnected && s.wbuf == [] {
      Inert(s.(status := Disconnected, owned := false, fired := s.fired + 1), cb);
    }
  }

  lemma CloseNowGood(s: Conn, cb: seq<Call>)
    requires Good(s)
    ensures Keeps(s, CloseNow(s, cb))
    ensures CloseNow(s, cb).wbuf == s.wbuf
    ensures !s.closeRequested && s.owned ==> CloseNow(s, cb).status != Connecting
  {
    if !s.closeRequested && s.owned {
      CloseInThreadGood(s.(closeRequested := true), cb);
    }
  }

  lemma AcceptedGood(s: Conn, message: seq<Byte>, k: nat)
    requires Good(s) && s.status == Connecting && k <= |message| && (s.wbuf == [] || k == 0)
    ensures Good(Accepted(s, message, k)) && Forward(s, Accepted(s, message, k))
  {
    FlattenSnoc(s.accepted, message);
    if k == 0 {
      assert message[..0] == [] && message[0..] == message && s.sent + [] == s.sent;
      Assoc(s.sent, s.wbuf, message);
    } else {
      SplitAt(message, k);
      Assoc(s.sent, message[..k], message[k..]);
      assert s.sent + [] == s.sent && s.wbuf + message[k..] == message[k..];
    }
  }

  lemma WriteInThreadGood(s: Conn, message: seq<Byte>, io: Io, cb: seq<Call>)
    requires Good(s)
    ensures Keeps(s, WriteInThread(s, message, io, cb))
  {
    if s.status == Connecting {
      if s.wbuf == [] && io.Fatal? {
        CloseInThreadGood(s, cb);
      } else {
        AcceptedGood(s, message, Direct(s, message, io));
      }
    }
  }

  /** As `Good`, but a deferred close may be due. */
  ghost predicate Flushed(s: Conn) {
    && s.sent + s.wbuf == Flatten(s.accepted)
    && s.fired == (if s.status == Disconnected then 1 else 0)
    && (s.status == Disconnected ==> s.wbuf == [])
    && (s.status == Disconnecting ==> s.closeRequested)
    && TasksOk(s)
  }

  lemma HandedFlushed(s: Conn, k: nat)
    requires Good(s) && k <= |s.wbuf|
    ensures Flushed(Handed(s, k)) && s.sent <= Handed(s, k).sent
  {
    SplitAt(s.wbuf, k);
    Assoc(s.sent, s.wbuf[..k], s.wbuf[k..]);
  }

  lemma AfterFlushGood(s: Conn, cb: seq<Call>)
    requires Flushed(s)
    ensures Good(AfterFlush(s, cb)) && Forward(s, AfterFlush(s, cb))
    ensures var t := AfterFlush(s, cb);
            && (Settled(s) ==> Settled(t))
            && t.wbuf == s.wbuf && t.rbuf == s.rbuf && t.accepted == s.accepted && t.sent == s.sent
            && t.status == (if s.status == Disconnecting && s.wbuf == [] then Disconnected else s.status)
            && t.events == (if s.wbuf == [] then s.events - {WriteEvents} else s.events)
            && (s.status != Disconnecting ==> t.closeRequested == s.closeRequested)
  {
    if s.wbuf == [] && s.status == Disconnecting {
      Inert(s.(events := s.events - {WriteEvents}, status := Disconnected, fired := s.fired + 1), cb);
    }
  }

  lemma FlushGood(s: Conn, io: Io, cb: seq<Call>)
    requires Good(s)
    ensures Keeps(s, Flush(s, io, cb))
  {
    if s.status != Disconnected {
      match io
      case Moved(n) =>
        var k := Min(n, |s.wbuf|);
        HandedFlushed(s, k);
        AfterFlushGood(Handed(s, k), cb);
      case Retry => AfterFlushGood(s, cb);
      case Fatal =>
        CloseNowGood(s, cb);
        AfterFlushGood(CloseNow(s, cb), cb);
    }
  }

  lemma {:induction false} ServeGood(s: Conn, r: seq<Byte>, i: nat, ios: seq<Io>, cb: seq<Call>)
    requires Good(s)
    ensures Keeps(s, Serve(s, r, i, ios, cb))
    decreases |r|
  {
    match FrameAt(r)
    case NeedMore =>
    case Reject => CloseNowGood(s.(rbuf := r), cb);
    case Frame(n) =>
      var s1, reply := s.(rbuf := r[n..]), Reply(r[..n]);
      WriteInThreadGood(s1, reply, IoAt(ios, i), cb);
      ServeGood(WriteNow(s1, reply, IoAt(ios, i), cb), r[n..], i + 1, ios, cb);
  }

  lemma ReceiveGood(s: Conn, input: Input, ios: seq<Io>, cb: seq<Call>)
    requires Good(s)
    ensures Keeps(s, Receive(s, input, ios, cb))
  {
    CloseNowGood(s, cb);
    if input.Data? {
      ServeGood(s, s.rbuf + input.bytes, 0, ios, cb);
    }
  }

  lemma PerformGood(s: Conn, a: Act, cb: seq<Call>)
    requires Good(s)
    ensures Keeps(s, Perform(s, a, cb))
  {
    match a
    case Say(m, io) => WriteInThreadGood(s, m, io, cb);
    case Hang => CloseNowGood(s, cb);
  }

  lemma {:induction false} PerformAllGood(s: Conn, acts: seq<Act>, cb: seq<Call>)
    requires Good(s)
    ensures Keeps(s, PerformAll(s, acts, cb))
    decreases |acts|
  {
    if acts != [] {
      PerformGood(s, acts[0], cb);
      PerformAllGood(Perform(s, acts[0], cb), acts[1..], cb);
    }
  }

  lemma ReceiveWithGood(s: Conn, bytes: seq<Byte>, taken: nat, acts: seq<Act>, cb: seq<Call>)
    requires Good(s)
    ensures Keeps(s, ReceiveWith(s, bytes, taken, acts, cb))
  {
    CloseNowGood(s, cb);
    var all := s.rbuf + bytes;
    PerformAllGood(s.(rbuf := all[Min(taken, |all|)..]), acts, cb);
  }

  lemma WriteKeepsInput(s: Conn, message: seq<Byte>, io: Io, cb: seq<Call>)
    requires Good(s)
    ensures WriteNow(s, message, io, cb).rbuf == s.rbuf
  {
    if s.owned && s.status == Connecting && s.wbuf == [] && io.Fatal? {
      var s2 := s.(status := Disconnected, owned := false);
      assert Connection.CloseInThread(s, cb) == Fire(s2, cb);
      Inert(s2.(fired := s.fired + 1), cb);
    }
  }

  /** The handler looks only at the bytes it is given. */
  lemma ServeIgnoresOld(s: Conn, r: seq<Byte>, i: nat, ios: seq<Io>, cb: seq<Call>)
    ensures Serve(s.(rbuf := r), r, i, ios, cb) == Serve(s, r, i, ios, cb)
  {}

  lemma RunPostedGood(s: Conn, io: Io, cb: seq<Call>)
    requires Good(s) && !Activates(s, RunTask(io, cb))
    ensures Keeps(s, RunPosted(s, io, cb))
  {
    if s.posted != [] {
      var s1 := s.(posted := s.posted[1..]);
      match s.posted[0]
      case WriteTask(m) => WriteInThreadGood(s1, m, io, cb);
      case CloseTask => CloseInThreadGood(s1, cb);
      case ActivateTask => assert RunPosted(s, io, cb) == s1;
    }
  }

  lemma PostGood(s: Conn, task: Task)
    requires Good(s)
    ensures Keeps(s, PostFrom(s, task))
  {}

  lemma ActivateStep(s: Conn, c: Call)
    requires Good(s) && Activates(s, c)
    ensures Exec(s, c) == s.(events := {ReadEvents, CloseEvents}, posted := Exec(s, c).posted)
    ensures CloseTask in Exec(s, c).posted <==> CloseTask in s.posted
  {
    if c.RunTask? {
      var s1 := s.(posted := s.posted[1..]);
      assert RunPosted(s, c.io, c.cb) == ActivateInThread(s1);
    }
  }

  /** One call keeps everything, but for the one way write interest is lost: activating a
      connection that has bytes waiting. */
  lemma ExecKeeps(s: Conn, c: Call)
    requires Good(s)
    ensures Good(Exec(s, c)) && Forward(s, Exec(s, c))
    ensures (Settled(s) ==> Settled(Exec(s, c))) && (Heeded(s) ==> Heeded(Exec(s, c)))
    ensures InterestOk(s) ==> (InterestOk(Exec(s, c)) <==> !(Activates(s, c) && s.wbuf != []))
    ensures Listening(s) ==> Listening(Exec(s, c))
  {
    if Activates(s, c) {
      ActivateStep(s, c);
    } else {
      ExecOther(s, c);
    }
  }

  lemma ExecOther(s: Conn, c: Call)
    requires Good(s) && !Activates(s, c)
    ensures Keeps(s, Exec(s, c))
  {
    match c
    case Activate => assert Exec(s, c) == s;
    case Write(m, io, cb) =>
      WriteInThreadGood(s, m, io, cb);
      assert Exec(s, c) == WriteNow(s, m, io, cb);
    case WriteFd(io, cb) =>
      FlushGood(s, io, cb);
      assert Exec(s, c) == Flush(s, io, cb);
    case Close(cb) =>
      CloseNowGood(s, cb);
      assert Exec(s, c) == CloseNow(s, cb);
    case Read(input, ios, cb) =>
      ReceiveGood(s, input, ios, cb);
      assert Exec(s, c) == Receive(s, input, ios, cb);
    case ReadWith(bytes, taken, acts, cb) =>
      ReceiveWithGood(s, bytes, taken, acts, cb);
      assert Exec(s, c) == ReceiveWith(s, bytes, taken, acts, cb);
    case Post(task) =>
      PostGood(s, task);
      assert Exec(s, c) == PostFrom(s, task);
    case RunTask(io, cb) =>
      RunPostedGood(s, io, cb);
      assert Exec(s, c) == RunPosted(s, io, cb);
  }

  // ---- whole runs ----

  /** Wire order and lifecycle over whole runs, for every kernel and every re-entrant close
      callback: the bytes sent and the bytes waiting are the accepted messages in order; the
      callback has run once if the connection is closed and not otherwise; a closed connection
      has sent everything it accepted; and no status, byte or message is taken back. */
  lemma {:induction false} RunGood(s: Conn, cs: seq<Call>)
    requires Good(s) && Settled(s) && Heeded(s)
    ensures Good(ExecAll(s, cs)) && Forward(s, ExecAll(s, cs)) && Settled(ExecAll(s, cs)) && Heeded(ExecAll(s, cs))
    decreases |cs|
  {
    if cs != [] {
      ExecKeeps(s, cs[0]);
      RunGood(Exec(s, cs[0]), cs[1..]);
    }
  }

  lemma WireOrder(cs: seq<Call>)
    ensures var t := ExecAll(Fresh(true), cs);
            && t.sent + t.wbuf == Flatten(t.accepted)
            && (t.status == Disconnected ==> t.sent == Flatten(t.accepted) && t.fired == 1 && !t.owned)
            && (t.status != Disconnected ==> t.fired == 0 && t.owned)
            && (t.closeRequested && t.status == Connecting ==> CloseTask in t.posted)
  {
    RunGood(Fresh(true), cs);
    var t := ExecAll(Fresh(true), cs);
    assert t.wbuf == [] ==> t.sent + t.wbuf == t.sent;
  }

  /** Some call of the run activates the connection over waiting bytes. */
  ghost predicate LateActivate(s: Conn, cs: seq<Call>)
    decreases |cs|
  {
    cs != [] && ((Activates(s, cs[0]) && s.wbuf != []) || LateActivate(Exec(s, cs[0]), cs[1..]))
  }

  /** Interest tracks the write buffer throughout a run: at its end, and so at every prefix. */
  ghost predicate AlwaysWatchful(s: Conn, cs: seq<Call>)
    decreases |cs|
  {
    InterestOk(s) && (cs != [] ==> AlwaysWatchful(Exec(s, cs[0]), cs[1..]))
  }

  /** A run keeps write interest right exactly when it never activates over waiting bytes. */
  lemma {:induction false} InterestExactly(s: Conn, cs: seq<Call>)
    requires Good(s) && InterestOk(s)
    ensures AlwaysWatchful(s, cs) <==> !LateActivate(s, cs)
    decreases |cs|
  {
    if cs != [] {
      ExecKeeps(s, cs[0]);
      if InterestOk(Exec(s, cs[0])) {
        InterestExactly(Exec(s, cs[0]), cs[1..]);
      }
    }
  }

  /** No activation is queued while the connection is still connecting. */
  ghost predicate Unqueued(s: Conn) {
    s.status == Connecting ==> ActivateTask !in s.posted
  }

  lemma {:induction false} ServeUnqueued(s: Conn, r: seq<Byte>, i: nat, ios: seq<Io>, cb: seq<Call>)
    requires Good(s) && Unqueued(s)
    ensures Unqueued(Serve(s, r, i, ios, cb))
    decreases |r|
  {
    match FrameAt(r)
    case NeedMore =>
    case Reject => CloseUnqueued(s.(rbuf := r), cb);
    case Frame(n) =>
      var s1, reply := s.(rbuf := r[n..]), Reply(r[..n]);
      WriteUnqueued(s1, reply, IoAt(ios, i), cb);
      WriteInThreadGood(s1, reply, IoAt(ios, i), cb);
      ServeUnqueued(WriteNow(s1, reply, IoAt(ios, i), cb), r[n..], i + 1, ios, cb);
  }

  lemma {:induction false} PerformUnqueued(s: Conn, acts: seq<Act>, cb: seq<Call>)
    requires Good(s) && Unqueued(s)
    ensures Unqueued(PerformAll(s, acts, cb))
    decreases |acts|
  {
    if acts != [] {
      PerformGood(s, acts[0], cb);
      if acts[0].Say? {
        WriteUnqueued(s, acts[0].message, acts[0].io, cb);
        assert Perform(s, acts[0], cb) == WriteNow(s, acts[0].message, acts[0].io, cb);
      } else {
        CloseUnqueued(s, cb);
        assert Perform(s, acts[0], cb) == CloseNow(s, cb);
      }
      PerformUnqueued(Perform(s, acts[0], cb), acts[1..], cb);
    }
  }

  lemma CloseUnqueued(s: Conn, cb: seq<Call>)
    requires Good(s) && Unqueued(s)
    ensures Unqueued(CloseNow(s, cb))
  {
    CloseNowGood(s, cb);
  }

  lemma WriteUnqueued(s: Conn, message: seq<Byte>, io: Io, cb: seq<Call>)
    requires Good(s) && Unqueued(s)
    ensures Unqueued(WriteInThread(s, message, io, cb))
  {
    if s.status == Connecting && s.wbuf == [] && io.Fatal? {
      CloseInThreadGood(s, cb);
    }
  }

  lemma FlushUnqueued(s: Conn, io: Io, cb: seq<Call>)
    requires Good(s) && Unqueued(s)
    ensures Unqueued(Flush(s, io, cb))
  {
    FlushGood(s, io, cb);
    if s.status == Connecting && io.Fatal? {
      CloseUnqueued(s, cb);
      CloseNowGood(s, cb);
      AfterFlushGood(CloseNow(s, cb), cb);
    }
  }

  lemma ExecUnqueued(s: Conn, c: Call)
    requires Good(s) && Unqueued(s) && !c.Activate? && c != Post(ActivateTask)
    ensures Unqueued(Exec(s, c)) && !Activates(s, c)
  {
    match c
    case Write(m, io, cb) =>
      WriteUnqueued(s, m, io, cb);
      assert Exec(s, c) == WriteNow(s, m, io, cb);
    case WriteFd(io, cb) =>
      FlushUnqueued(s, io, cb);
      assert Exec(s, c) == Flush(s, io, cb);
    case Close(cb) =>
      CloseUnqueued(s, cb);
      assert Exec(s, c) == CloseNow(s, cb);
    case Read(input, ios, cb) =>
      CloseUnqueued(s, cb);
      if input.Data? { ServeUnqueued(s, s.rbuf + input.bytes, 0, ios, cb); }
      assert Exec(s, c) == Receive(s, input, ios, cb);
    case ReadWith(bytes, taken, acts, cb) =>
      CloseUnqueued(s, cb);
      var all := s.rbuf + bytes;
      PerformUnqueued(s.(rbuf := all[Min(taken, |all|)..]), acts, cb);
      assert Exec(s, c) == ReceiveWith(s, bytes, taken, acts, cb);
    case Post(task) => assert Exec(s, c) == PostFrom(s, task);
    case RunTask(io, cb) =>
      RunPostedGood(s, io, cb);
      assert Exec(s, c) == RunPosted(s, io, cb);
      if s.posted != [] {
        var s1 := s.(posted := s.posted[1..]);
        match s.posted[0]
        case WriteTask(m) => WriteUnqueued(s1, m, io, cb);
        case CloseTask => CloseInThreadGood(s1, cb);
        case ActivateTask =>
      }
  }

  lemma {:induction false} NeverLate(s: Conn, cs: seq<Call>)
    requires Good(s) && Unqueued(s)
    requires forall i :: 0 <= i < |cs| ==> !cs[i].Activate? && cs[i] != Post(ActivateTask)
    ensures !LateActivate(s, cs)
    decreases |cs|
  {
    if cs != [] {
      ExecUnqueued(s, cs[0]);
      ExecKeeps(s, cs[0]);
      NeverLate(Exec(s, cs[0]), cs[1..]);
    }
  }

  /** A connection that is activated first, and only then, watches for writability exactly while
      bytes are waiting, at every point of every run. */
  lemma ActivateFirst(cs: seq<Call>)
    requires forall i :: 0 <= i < |cs| ==> !cs[i].Activate? && cs[i] != Post(ActivateTask)
    ensures AlwaysWatchful(Fresh(true), [Activate] + cs)
  {
    var s := Exec(Fresh(true), Activate);
    assert ([Activate] + cs)[1..] == cs;
    ExecKeeps(Fresh(true), Activate);
    NeverLate(s, cs);
    InterestExactly(Fresh(true), [Activate] + cs);
  }

  /** A new-connection callback that writes before the server activates the connection can lose
      its write interest: here the kernel takes nothing, and the bytes wait unwatched. */
  lemma GreetingStalls(greeting: seq<Byte>)
    requires greeting != []
    ensures var t := ExecAll(Fresh(true), [Write(greeting, Retry, []), Activate]);
            t.status == Connecting && t.wbuf == greeting && WriteEvents !in t.events
  {
    var w := Write(greeting, Retry, []);
    var s := Exec(Fresh(true), w);
    assert s == WriteNow(Fresh(true), greeting, Retry, []);
    assert s == WriteInThread(Fresh(true), greeting, Retry, []);
    assert ExecAll(Fresh(true), [w, Activate]) == ExecAll(s, [w, Activate][1..]);
    assert [w, Activate][1..] == [Activate];
    assert ExecAll(s, [Activate]) == ExecAll(Exec(s, Activate), [Activate][1..]);
  }

  // ---- draining after a close request ----

  function MovedOf(c: Call): nat {
    if c.WriteFd? && c.io.Moved? then c.io.n else 0
  }

  /** What the kernel offers to take at the writable events of a run. */
  function MovedBy(cs: seq<Call>): nat {
    if cs == [] then 0 else MovedOf(cs[0]) + MovedBy(cs[1..])
  }

  lemma DrainStep(s: Conn, io: Io, cb: seq<Call>)
    requires Good(s) && s.status == Disconnecting
    ensures var n := if io.Moved? then io.n else 0;
            var t := Flush(s, io, cb);
            if n >= |s.wbuf| then t.status == Disconnected
            else t.status == Disconnecting && |t.wbuf| == |s.wbuf| - n
  {
    if io.Moved? {
      var k := Min(io.n, |s.wbuf|);
      HandedFlushed(s, k);
      AfterFlushGood(Handed(s, k), cb);
    }
  }

  /** Nothing but a writable event touches the bytes of a connection that is closing. */
  lemma ClosingWaits(s: Conn, c: Call)
    requires Good(s) && s.status == Disconnecting && !c.WriteFd?
    ensures Exec(s, c).status == Disconnecting && Exec(s, c).wbuf == s.wbuf && Exec(s, c).accepted == s.accepted
  {
    match c
    case Activate =>
    case Write(m, io, cb) => assert WriteInThread(s, m, io, cb) == s;
    case Close(cb) => assert CloseNow(s, cb) == s;
    case Read(input, ios, cb) => assert Receive(s, input, ios, cb) == s;
    case ReadWith(bytes, taken, acts, cb) => assert ReceiveWith(s, bytes, taken, acts, cb) == s;
    case Post(task) =>
    case RunTask(io, cb) =>
      if s.posted != [] {
        var s1 := s.(posted := s.posted[1..]);
        match s.posted[0]
        case WriteTask(m) => assert WriteInThread(s1, m, io, cb) == s1;
        case CloseTask => assert CloseInThread(s1, cb) == s1.(events := s1.events + {WriteEvents});
        case ActivateTask => assert ActivateInThread(s1) == s1;
      }
  }

  lemma DrainCall(s: Conn, c: Call)
    requires Good(s) && s.status == Disconnecting
    ensures var t := Exec(s, c);
            && Good(t) && t.accepted == s.accepted
            && if MovedOf(c) >= |s.wbuf| then t.status == Disconnected
               else t.status == Disconnecting && |t.wbuf| == |s.wbuf| - MovedOf(c)
  {
    ExecKeeps(s, c);
    if c.WriteFd? {
      DrainStep(s, c.io, c.cb);
      assert Exec(s, c) == Flush(s, c.io, c.cb);
    } else {
      ClosingWaits(s, c);
    }
  }

  /** After a close request with bytes waiting, whatever else is called on the connection, it closes
      exactly when its writable events have let the kernel take all of those bytes; failing writes,
      fatal or not, never close it, and nothing else hastens or spoils it. */
  lemma {:induction false} DrainExactly(s: Conn, cs: seq<Call>)
    requires Good(s) && s.status == Disconnecting
    ensures var t := ExecAll(s, cs);
            && (t.status == Disconnected <==> MovedBy(cs) >= |s.wbuf|)
            && (t.status == Disconnected ==> t.sent == Flatten(s.accepted) && t.fired == 1)
            && (t.status != Disconnected ==> t.status == Disconnecting && |t.wbuf| == |s.wbuf| - MovedBy(cs))
    decreases |cs|
  {
    if cs != [] {
      var t := Exec(s, cs[0]);
      DrainCall(s, cs[0]);
      if t.status == Disconnected {
        Inert(t, cs[1..]);
        assert t.sent + t.wbuf == t.sent;
      } else {
        DrainExactly(t, cs[1..]);
      }
    }
  }

  /** Writable events at which the kernel takes something. */
  function Progress(cs: seq<Call>): nat {
    if cs == [] then 0 else (if MovedOf(cs[0]) > 0 then 1 else 0) + Progress(cs[1..])
  }

  lemma {:induction false} MovedAtLeast(cs: seq<Call>)
    ensures MovedBy(cs) >= Progress(cs)
  {
    if cs != [] { MovedAtLeast(cs[1..]); }
  }

  /** As many writable events with progress as there are waiting bytes are enough, in any run. */
  lemma DrainsInTime(s: Conn, cs: seq<Call>)
    requires Good(s) && s.status == Disconnecting && Progress(cs) >= |s.wbuf|
    ensures var t := ExecAll(s, cs);
            t.status == Disconnected && t.sent == Flatten(s.accepted)
  {
    MovedAtLeast(cs);
    DrainExactly(s, cs);
  }

  /** A fatal write error over waiting bytes: the connection is left closing, and whatever is called
      on it afterwards closes it only by way of a kernel that takes those bytes after all. */
  lemma FatalStrands(message: seq<Byte>, cs: seq<Call>)
    requires message != []
    ensures var s := ExecAll(Fresh(true), [Activate, Write(message, Retry, []), WriteFd(Fatal, [])]);
            && s.status == Disconnecting && s.wbuf == message
            && (ExecAll(s, cs).status == Disconnected <==> MovedBy(cs) >= |message|)
  {
    var f := Fresh(true);
    var a := Exec(f, Activate);
    var w, d := Write(message, Retry, []), WriteFd(Fatal, []);
    var b := Exec(a, w);
    var s := Exec(b, d);
    assert b == WriteNow(a, message, Retry, []);
    assert b == WriteInThread(a, message, Retry, []);
    assert b.wbuf == message by { assert [] + message == message && message[0..] == message; }
    assert s == Flush(b, Fatal, []);
    assert CloseNow(b, []) == CloseInThread(b.(closeRequested := true), []);
    ThreeCalls(f, Activate, w, d);
    RunGood(f, [Activate, w, d]);
    DrainExactly(s, cs);
  }

  lemma ThreeCalls(s: Conn, a: Call, b: Call, c: Call)
    ensures ExecAll(s, [a, b, c]) == Exec(Exec(Exec(s, a), b), c)
  {
    assert [a, b, c][1..] == [b, c] && [b, c][1..] == [c] && [c][1..] == [];
    assert ExecAll(Exec(s, a), [b, c]) == ExecAll(Exec(Exec(s, a), b), [c]);
    assert ExecAll(Exec(Exec(s, a), b), [c]) == ExecAll(Exec(Exec(Exec(s, a), b), c), []);
  }

  // ---- independence from how reads are cut ----

  ghost predicate Patient(ios: seq<Io>) {
    forall i :: 0 <= i < |ios| ==> !ios[i].Fatal?
  }

  /** Traffic without I/O errors: data in any pieces, reads with nothing ready, writable events,
      activations. */
  ghost predicate Benign(c: Call) {
    match c
    case Activate => true
    case Read(input, ios, _) => !input.ReadFatal? && (input.Data? ==> input.bytes != []) && Patient(ios)
    case WriteFd(io, _) => !io.Fatal?
    case _ => false
  }

  function Arrived(cs: seq<Call>): seq<seq<Byte>> {
    if cs == [] then []
    else (if cs[0].Read? && cs[0].input.Data? then [cs[0].input.bytes] else []) + Arrived(cs[1..])
  }

  /** The connection is where a receiver that has taken `st.frames` would be. */
  ghost predicate Tracks(s: Conn, st: Session) {
    && Good(s) && Settled(s)
    && s.rbuf == st.pending
    && s.closeRequested == st.closed
    && (s.status == Connecting <==> !st.closed)
    && Framed(st.frames) && s.accepted == Replies(st.frames)
  }

  /** Answering the frames in `r` leaves the connection open, with the parse's leftover. */
  ghost predicate Served(s: Conn, t: Conn, p: Parsed) {
    && Framed(p.frames)
    && t.accepted == s.accepted + Replies(p.frames)
    && t.rbuf == p.rest
    && t.closeRequested == p.rejected
    && (t.status == Connecting <==> !p.rejected)
  }

  lemma RepliesAppend(a: seq<seq<Byte>>, b: seq<seq<Byte>>)
    requires Framed(a) && Framed(b)
    ensures Framed(a + b) && Replies(a + b) == Replies(a) + Replies(b)
  {}

  lemma {:induction false} ServeBenign(s: Conn, r: seq<Byte>, i: nat, ios: seq<Io>, cb: seq<Call>)
    requires Good(s) && s.status == Connecting && s.owned && !s.closeRequested && Patient(ios)
    ensures Served(s, Serve(s, r, i, ios, cb), Scan(r))
    decreases |r|
  {
    FrameAtStable();
    ScanFramed(r);
    match FrameAt(r)
    case NeedMore => assert s.accepted + [] == s.accepted;
    case Reject =>
      assert s.accepted + [] == s.accepted;
      CloseNowGood(s.(rbuf := r), cb);
      CloseKeepsInput(s.(rbuf := r), cb);
    case Frame(n) =>
      var s1, reply := s.(rbuf := r[n..]), Reply(r[..n]);
      var s2 := WriteNow(s1, reply, IoAt(ios, i), cb);
      assert s2 == WriteInThread(s1, reply, IoAt(ios, i), cb);
      WriteInThreadGood(s1, reply, IoAt(ios, i), cb);
      ServeBenign(s2, r[n..], i + 1, ios, cb);
      var more := Scan(r[n..]).frames;
      RepliesAppend([r[..n]], more);
      assert Replies([r[..n]]) == [reply];
      Assoc(s.accepted, [reply], Replies(more));
  }

  lemma ReadTracks(s: Conn, st: Session, bytes: seq<Byte>, ios: seq<Io>, cb: seq<Call>)
    requires Stable(FrameAt) && Tracks(s, st) && bytes != [] && Patient(ios)
    ensures Tracks(Receive(s, Data(bytes), ios, cb), Feed(FrameAt, st, bytes))
  {
    ReceiveGood(s, Data(bytes), ios, cb);
    if !st.closed {
      ServeBenign(s, s.rbuf + bytes, 0, ios, cb);
      var p := Scan(s.rbuf + bytes);
      RepliesAppend(st.frames, p.frames);
    }
  }

  lemma CloseKeepsInput(s: Conn, cb: seq<Call>)
    requires Good(s) && s.status == Connecting && s.owned && !s.closeRequested
    ensures var t := CloseNow(s, cb);
            t.rbuf == s.rbuf && t.accepted == s.accepted && t.closeRequested
  {
    var s1 := s.(closeRequested := true);
    assert CloseNow(s, cb) == CloseInThread(s1, cb);
    if s.wbuf == [] {
      var s2 := s1.(status := Disconnected, owned := false);
      assert CloseInThread(s1, cb) == Fire(s2, cb);
      Inert(s2.(fired := s.fired + 1), cb);
    }
  }

  lemma FlushTracks(s: Conn, st: Session, io: Io, cb: seq<Call>)
    requires Tracks(s, st) && !io.Fatal?
    ensures Tracks(Flush(s, io, cb), st)
  {
    FlushGood(s, io, cb);
    if s.status != Disconnected {
      var k := if io.Moved? then Min(io.n, |s.wbuf|) else 0;
      HandedFlushed(s, k);
      assert s.sent + [] == s.sent && s.wbuf[0..] == s.wbuf;
      AfterFlushGood(Handed(s, k), cb);
    }
  }

  lemma {:induction false} RunTracks(s: Conn, st: Session, cs: seq<Call>)
    requires Stable(FrameAt) && Tracks(s, st)
    requires forall i :: 0 <= i < |cs| ==> Benign(cs[i])
    ensures Tracks(ExecAll(s, cs), FeedAll(FrameAt, st, Arrived(cs)))
    decreases |cs|
  {
    if cs != [] {
      var c, more := cs[0], Arrived(cs[1..]);
      assert Benign(c);
      if c.Read? && c.input.Data? {
        ReadTracks(s, st, c.input.bytes, c.ios, c.cb);
        assert Arrived(cs)[0] == c.input.bytes && Arrived(cs)[1..] == more;
        RunTracks(Exec(s, c), Feed(FrameAt, st, c.input.bytes), cs[1..]);
      } else {
        if c.WriteFd? {
          FlushTracks(s, st, c.io, c.cb);
          assert Exec(s, c) == Flush(s, c.io, c.cb);
        } else if c.Read? {
          assert Exec(s, c) == Receive(s, c.input, c.ios, c.cb);
          assert Exec(s, c) == s;
        }
        assert Arrived(cs) == more;
        RunTracks(Exec(s, c), st, cs[1..]);
      }
    }
  }

  /** Exactly the frames of a parse have been answered, and the parse's end is the connection's. */
  ghost predicate AnswersParse(t: Conn, p: Parsed) {
    && Framed(p.frames)
    && t.accepted == Replies(p.frames)
    && t.sent + t.wbuf == Flatten(Replies(p.frames))
    && (t.status != Connecting <==> p.rejected)
    && (!p.rejected ==> t.rbuf == p.rest)
  }

  lemma TracksAnswer(t: Conn, e: Session, p: Parsed)
    requires Tracks(t, e) && Agrees(e, [], p)
    ensures AnswersParse(t, p)
  {
    assert [] + p.frames == p.frames;
  }

  /** Whatever the pieces a stream arrives in and however writes are cut short, the default
      handler answers exactly the frames of the one-shot parse, in order, and closes exactly
      when that parse meets an oversized length. */
  lemma ChunkingIndependence(cs: seq<Call>)
    requires forall i :: 0 <= i < |cs| ==> Benign(cs[i])
    ensures AnswersParse(ExecAll(Fresh(true), cs), Scan(Flatten(Arrived(cs))))
  {
    FrameAtStable();
    FreshTracks();
    RunTracks(Fresh(true), Session([], [], false), cs);
    Chunking(FrameAt, Arrived(cs));
    var e := FeedAll(FrameAt, Session([], [], false), Arrived(cs));
    TracksAnswer(ExecAll(Fresh(true), cs), e, Scan(Flatten(Arrived(cs))));
  }

  lemma FreshTracks()
    ensures Tracks(Fresh(true), Session([], [], false))
  {}
}
