/** What each call on a connection brings about, in terms of the kernel's answers alone. */
module ConnectionEffects {
  import opened Bytes
  import opened Connection
  import opened ConnectionProofs

  // ---- writing ----

  /** A write on an open connection: with nothing waiting the kernel is given the message at once and
      what it does not take waits, a fatal error closing the connection, message and all; behind
      waiting bytes the whole message waits. On any other connection it is dropped. */
  lemma WriteEffect(s: Conn, m: seq<Byte>, io: Io, cb: seq<Call>)
    requires Good(s)
    ensures var t := Exec(s, Write(m, io, cb));
            var taken := if s.wbuf == [] && io.Moved? then (if io.n < |m| then io.n else |m|) else 0;
            if !s.owned || s.status != Connecting then t == s
            else if s.wbuf == [] && io.Fatal? then
              && t.status == Disconnected && !t.owned && t.fired == s.fired + 1
              && t.sent == s.sent && t.accepted == s.accepted
            else
              && t.status == Connecting && t.owned && t.closeRequested == s.closeRequested && t.fired == s.fired
              && t.rbuf == s.rbuf && t.posted == s.posted && t.accepted == s.accepted + [m]
              && t.sent == s.sent + m[..taken] && t.wbuf == s.wbuf + m[taken..]
  {
    assert Exec(s, Write(m, io, cb)) == WriteNow(s, m, io, cb);
    if s.owned {
      assert WriteNow(s, m, io, cb) == WriteInThread(s, m, io, cb);
      if s.status == Connecting && s.wbuf == [] && io.Fatal? {
        var s2 := s.(status := Disconnected, owned := false);
        assert CloseInThread(s, cb) == Fire(s2, cb);
        Inert(s2.(fired := s.fired + 1), cb);
      }
    }
  }

  /** A writable event: the kernel takes what it will of the waiting bytes, and the loop stops watching
      for it once none wait. A fatal error asks for the connection to be closed. */
  lemma WritableEffect(s: Conn, io: Io, cb: seq<Call>)
    requires Good(s) && s.status != Disconnected
    ensures var t := Exec(s, WriteFd(io, cb));
            var n := if io.Moved? then (if io.n < |s.wbuf| then io.n else |s.wbuf|) else 0;
            && t.sent == s.sent + s.wbuf[..n] && t.wbuf == s.wbuf[n..] && t.accepted == s.accepted
            && (n == |s.wbuf| && t.status != Disconnected ==> WriteEvents !in t.events)
            && (!io.Fatal? ==> t.closeRequested == s.closeRequested || t.status == Disconnected)
            && (!io.Fatal? && s.status == Connecting ==> t.status == Connecting)
            && (io.Fatal? ==> t.closeRequested)
            && (io.Fatal? && s.owned && !s.closeRequested ==>
                  t.status == if s.wbuf == [] then Disconnected else Disconnecting)
  {
    assert Exec(s, WriteFd(io, cb)) == Flush(s, io, cb);
    match io
    case Moved(n) =>
      var k := Min(n, |s.wbuf|);
      HandedFlushed(s, k);
      AfterFlushGood(Handed(s, k), cb);
    case Retry => AfterFlushGood(s, cb);
    case Fatal =>
      CloseNowGood(s, cb);
      CloseEffect(s, cb);
      AfterFlushGood(CloseNow(s, cb), cb);
  }

  lemma FlattenLonger(a: seq<seq<Byte>>, b: seq<seq<Byte>>)
    requires a <= b
    ensures |Flatten(a)| <= |Flatten(b)|
  {
    assert b == a + b[|a|..];
    FlattenAppend(a, b[|a|..]);
  }

  lemma SendStep(s: Conn, c: Call, more: nat)
    requires Good(s) && s.status != Disconnected
    ensures var t := Exec(s, c);
            |t.sent| + Min(|t.wbuf|, more) >= |s.sent| + Min(|s.wbuf|, MovedOf(c) + more)
  {
    var t := Exec(s, c);
    ExecKeeps(s, c);
    FlattenLonger(s.accepted, t.accepted);
    assert |t.sent| + |t.wbuf| == |t.sent + t.wbuf| && |s.sent| + |s.wbuf| == |s.sent + s.wbuf|;
    if c.WriteFd? { WritableEffect(s, c.io, c.cb); }
  }

  /** In every run, whatever else is called, the waiting bytes go out as fast as the kernel takes them:
      at least as many have been sent as were waiting, or as it has offered to take. */
  lemma {:induction false} SentAtLeast(s: Conn, cs: seq<Call>)
    requires Good(s)
    ensures |ExecAll(s, cs).sent| >= |s.sent| + Min(|s.wbuf|, MovedBy(cs))
    decreases |cs|
  {
    if s.status == Disconnected {
      Inert(s, cs);
    } else if cs != [] {
      SendStep(s, cs[0], MovedBy(cs[1..]));
      ExecKeeps(s, cs[0]);
      SentAtLeast(Exec(s, cs[0]), cs[1..]);
    }
  }

  // ---- closing ----

  /** The first request to close, from whatever handler, closes a connection with nothing to send at
      once, running the callback, and lets any other send what waits first; a further one does nothing. */
  lemma CloseEffect(s: Conn, cb: seq<Call>)
    requires Good(s)
    ensures var t := Exec(s, Close(cb));
            if s.closeRequested then t == s
            else if !s.owned then t == s.(closeRequested := true)
            else
              && t.closeRequested && t.sent == s.sent && t.wbuf == s.wbuf && t.accepted == s.accepted
              && t.rbuf == s.rbuf
              && (s.status != Disconnected ==>
                    if s.wbuf == [] then t.status == Disconnected && !t.owned && t.fired == 1
                    else t.status == Disconnecting && WriteEvents in t.events && t.fired == 0)
  {
    assert Exec(s, Close(cb)) == CloseNow(s, cb);
    if !s.closeRequested && s.owned {
      var s1 := s.(closeRequested := true);
      assert CloseNow(s, cb) == CloseInThread(s1, cb);
      if s.status != Disconnected && s.wbuf == [] {
        var s2 := s1.(status := Disconnected, owned := false);
        assert CloseInThread(s1, cb) == Fire(s2, cb);
        Inert(s2.(fired := s.fired + 1), cb);
      }
    }
  }

  /** The close callback makes its calls on a connection that is already closed and off its loop. */
  lemma CloseCallsBack(s: Conn, cb: seq<Call>)
    requires s.owned && !s.closeRequested && s.status != Disconnected && s.wbuf == []
    ensures Exec(s, Close(cb))
         == ExecAll(s.(closeRequested := true, status := Disconnected, owned := false, fired := s.fired + 1), cb)
  {
    var s1 := s.(closeRequested := true);
    assert Exec(s, Close(cb)) == CloseNow(s, cb);
    assert CloseNow(s, cb) == CloseInThread(s1, cb);
    assert CloseInThread(s1, cb) == Fire(s1.(status := Disconnected, owned := false), cb);
  }

  /** When a deferred close completes the callback runs before the connection is taken off its loop. */
  lemma DrainCallsBack(s: Conn, n: nat, cb: seq<Call>)
    requires s.status == Disconnecting && s.wbuf != [] && n >= |s.wbuf|
    ensures Exec(s, WriteFd(Moved(n), cb))
         == ExecAll(s.(sent := s.sent + s.wbuf, wbuf := [], events := s.events - {WriteEvents},
                       status := Disconnected, fired := s.fired + 1), cb).(owned := false)
  {
    assert Exec(s, WriteFd(Moved(n), cb)) == Flush(s, Moved(n), cb);
    assert s.wbuf[..|s.wbuf|] == s.wbuf;
    var h := Handed(s, |s.wbuf|);
    assert Flush(s, Moved(n), cb) == AfterFlush(h, cb);
    var h1 := h.(events := h.events - {WriteEvents});
    assert AfterFlush(h, cb) == Fire(h1.(status := Disconnected), cb).(owned := false);
  }

  /** End of stream and fatal read errors are requests to close, under either kind of handler; a read
      with nothing ready does nothing, nor does any read once closing has begun. */
  lemma ReadEnds(s: Conn, input: Input, ios: seq<Io>, taken: nat, acts: seq<Act>, cb: seq<Call>)
    ensures s.status == Connecting && (input == Data([]) || input.ReadFatal?) ==>
              Exec(s, Read(input, ios, cb)) == Exec(s, Close(cb))
    ensures s.status == Connecting ==> Exec(s, ReadWith([], taken, acts, cb)) == Exec(s, Close(cb))
    ensures input.ReadRetry? || s.status != Connecting ==> Exec(s, Read(input, ios, cb)) == s
    ensures s.status != Connecting ==> Exec(s, ReadWith(s.rbuf, taken, acts, cb)) == s
  {
    assert Exec(s, Read(input, ios, cb)) == Receive(s, input, ios, cb);
    assert Exec(s, ReadWith([], taken, acts, cb)) == ReceiveWith(s, [], taken, acts, cb);
    assert Exec(s, ReadWith(s.rbuf, taken, acts, cb)) == ReceiveWith(s, s.rbuf, taken, acts, cb);
    assert Exec(s, Close(cb)) == CloseNow(s, cb);
  }

  // ---- activation ----

  /** An activation has the loop watch for input and for the peer closing, and for nothing else. */
  lemma ActivateEffect(s: Conn)
    ensures Exec(s, Activate)
         == if s.owned && s.status == Connecting then s.(events := {ReadEvents, CloseEvents}) else s
  {}

  /** From then on it watches for both for as long as the connection is open, in every run. */
  lemma Listens(s: Conn, cs: seq<Call>)
    requires Good(s) && s.owned
    ensures Listening(ExecAll(Exec(s, Activate), cs))
  {
    ExecKeeps(s, Activate);
    StaysListening(Exec(s, Activate), cs);
  }

  lemma {:induction false} StaysListening(s: Conn, cs: seq<Call>)
    requires Good(s) && Listening(s)
    ensures Listening(ExecAll(s, cs))
    decreases |cs|
  {
    if cs != [] {
      ExecKeeps(s, cs[0]);
      StaysListening(Exec(s, cs[0]), cs[1..]);
    }
  }

  // ---- calls from other threads ----

  /** A call from another thread is queued behind those before it, while a loop owns the connection; a
      close request is noted at once, and a second one is not queued. */
  lemma PostEffect(s: Conn, task: Task)
    ensures var t := Exec(s, Post(task));
            && t == s.(closeRequested := t.closeRequested, posted := t.posted)
            && t.closeRequested == (s.closeRequested || task == CloseTask)
            && t.posted == if s.owned && !(task == CloseTask && s.closeRequested) then s.posted + [task] else s.posted
  {
    assert Exec(s, Post(task)) == PostFrom(s, task);
  }

  /** When its turn comes it does what it would have done when called on the loop's own thread. */
  lemma PostedIsDirect(s: Conn, io: Io, cb: seq<Call>)
    requires Good(s) && Settled(s)
    ensures s.posted == [] ==> Exec(s, RunTask(io, cb)) == s
    ensures s.posted != [] ==>
              var s1, t := s.(posted := s.posted[1..]), Exec(s, RunTask(io, cb));
              match s.posted[0]
              case WriteTask(m) => t == Exec(s1, Write(m, io, cb))
              case CloseTask => t == Exec(s1.(closeRequested := false), Close(cb))
              case ActivateTask => t == Exec(s1, Activate)
  {
    assert Exec(s, RunTask(io, cb)) == RunPosted(s, io, cb);
    if s.posted != [] {
      var s1 := s.(posted := s.posted[1..]);
      match s.posted[0]
      case WriteTask(m) =>
        assert Exec(s1, Write(m, io, cb)) == WriteNow(s1, m, io, cb);
        if !s1.owned { assert WriteInThread(s1, m, io, cb) == s1; }
      case CloseTask =>
        var s2 := s1.(closeRequested := false);
        assert Exec(s2, Close(cb)) == CloseNow(s2, cb);
        assert s2.(closeRequested := true) == s1;
        if !s1.owned { assert CloseInThread(s1, cb) == s1; }
      case ActivateTask => assert Exec(s1, Activate) == if s1.owned then ActivateInThread(s1) else s1;
    }
  }

  function Posts(ms: seq<seq<Byte>>): seq<Call> {
    if ms == [] then [] else [Post(WriteTask(ms[0]))] + Posts(ms[1..])
  }

  function Turns(ios: seq<Io>, cb: seq<Call>): seq<Call> {
    if ios == [] then [] else [RunTask(ios[0], cb)] + Turns(ios[1..], cb)
  }

  function Tasks(ms: seq<seq<Byte>>): seq<Task> {
    if ms == [] then [] else [WriteTask(ms[0])] + Tasks(ms[1..])
  }

  lemma {:induction false} PostsQueue(s: Conn, ms: seq<seq<Byte>>)
    requires s.owned
    ensures ExecAll(s, Posts(ms)) == s.(posted := s.posted + Tasks(ms))
    decreases |ms|
  {
    if ms == [] {
      assert s.posted + [] == s.posted;
    } else {
      var p := Posts(ms);
      assert p[0] == Post(WriteTask(ms[0])) && p[1..] == Posts(ms[1..]);
      PostEffect(s, WriteTask(ms[0]));
      PostsQueue(Exec(s, p[0]), ms[1..]);
      Assoc(s.posted, [WriteTask(ms[0])], Tasks(ms[1..]));
    }
  }

  lemma {:induction false} TurnsWrite(s: Conn, ms: seq<seq<Byte>>, ios: seq<Io>, cb: seq<Call>)
    requires Good(s) && Settled(s) && s.status == Connecting && |ios| == |ms| && Patient(ios)
    requires s.posted == Tasks(ms)
    ensures var t := ExecAll(s, Turns(ios, cb));
            t.accepted == s.accepted + ms && t.posted == [] && t.status == Connecting
    decreases |ms|
  {
    if ms == [] {
      assert s.accepted + [] == s.accepted;
    } else {
      var q := Turns(ios, cb);
      assert q[0] == RunTask(ios[0], cb) && q[1..] == Turns(ios[1..], cb);
      var s1, t1 := s.(posted := s.posted[1..]), Exec(s, q[0]);
      assert s.posted[0] == WriteTask(ms[0]) && s.posted[1..] == Tasks(ms[1..]);
      PostedIsDirect(s, ios[0], cb);
      WriteEffect(s1, ms[0], ios[0], cb);
      ExecKeeps(s, q[0]);
      TurnsWrite(t1, ms[1..], ios[1..], cb);
      Assoc(s.accepted, [ms[0]], ms[1..]);
      assert [ms[0]] + ms[1..] == ms;
    }
  }

  /** Messages written from another thread are all accepted, in the order in which they were posted,
      as the loop gets to them. */
  lemma PostedWritesArrive(s: Conn, ms: seq<seq<Byte>>, ios: seq<Io>, cb: seq<Call>)
    requires Good(s) && Settled(s) && s.status == Connecting && s.posted == [] && |ios| == |ms| && Patient(ios)
    ensures var t := ExecAll(s, Posts(ms) + Turns(ios, cb));
            t.accepted == s.accepted + ms && t.posted == [] && t.sent + t.wbuf == Flatten(s.accepted + ms)
  {
    PostsQueue(s, ms);
    StaysGood(s, Posts(ms));
    var mid := ExecAll(s, Posts(ms));
    assert [] + Tasks(ms) == Tasks(ms);
    TurnsWrite(mid, ms, ios, cb);
    ExecAllAppend(s, Posts(ms), Turns(ios, cb));
    StaysGood(mid, Turns(ios, cb));
  }

  lemma {:induction false} StaysGood(s: Conn, cs: seq<Call>)
    requires Good(s)
    ensures Good(ExecAll(s, cs))
    decreases |cs|
  {
    if cs != [] {
      ExecKeeps(s, cs[0]);
      StaysGood(Exec(s, cs[0]), cs[1..]);
    }
  }
}
