/** The connection of src/tcpconnection.cpp as a machine over an arbitrary kernel: `Exec` says
    what each entry point does on the owner thread, for every result its system call may have. */
module Connection {
  import opened Bytes
  import opened Streaming

  datatype Status = Connecting | Disconnecting | Disconnected

  datatype Interest = ReadEvents | WriteEvents | CloseEvents

  /** The result of `write`: bytes taken (at most those offered), EAGAIN/EWOULDBLOCK/EINTR, or another errno. */
  datatype Io = Moved(n: nat) | Retry | Fatal

  /** The result of `readv`: bytes (none at end of stream), EAGAIN/EWOULDBLOCK/EINTR, or another errno. */
  datatype Input = Data(bytes: seq<Byte>) | ReadRetry | ReadFatal

  /** A call made on behalf of another thread, queued on the owner loop. */
  datatype Task = WriteTask(message: seq<Byte>) | CloseTask | ActivateTask

  datatype Conn = Conn(
    status: Status,
    closeRequested: bool,
    owned: bool,                // registered with a loop, socket open
    events: set<Interest>,
    rbuf: seq<Byte>,
    wbuf: seq<Byte>,
    sent: seq<Byte>,            // bytes the kernel has taken, in order
    accepted: seq<seq<Byte>>,   // messages a Write has taken responsibility for
    fired: nat,                 // times the close callback has run
    posted: seq<Task>)

  /** What an installed message handler does to its connection. */
  datatype Act = Say(message: seq<Byte>, io: Io) | Hang

  /** An entry point with the kernel's answers; `cb` is what the user's close callback calls
      on this same connection, should the call make it run. */
  datatype Call =
    | Activate
    | Write(message: seq<Byte>, io: Io, cb: seq<Call>)
    | WriteFd(io: Io, cb: seq<Call>)
    | Close(cb: seq<Call>)
    | Read(input: Input, ios: seq<Io>, cb: seq<Call>)
    | ReadWith(bytes: seq<Byte>, taken: nat, acts: seq<Act>, cb: seq<Call>)  // SetOnMessage in force
    | Post(task: Task)
    | RunTask(io: Io, cb: seq<Call>)

  // ---- the default message handler ----

  const MAX_FRAME: nat := 100000

  /** One turn of the default `onmessage_` loop: a four-byte length, then that many bytes. */
  function FrameAt(s: seq<Byte>): Verdict {
    if |s| < 4 then NeedMore
    else
      var len := FromBigEndian(s[..4]);
      if len > MAX_FRAME then Reject
      else if |s| >= len + 4 then Frame(len + 4)
      else NeedMore
  }

  lemma FrameAtStable()
    ensures Stable(FrameAt) && FrameAt([]).NeedMore?
  {
    forall s: seq<Byte>, t: seq<Byte> ensures StableAt(FrameAt, s, t) {
      if |s| >= 4 { assert (s + t)[..4] == s[..4]; }
    }
  }

  /** " OK!" */
  const OK: seq<Byte> := [32, 79, 75, 33]

  /** The reply to a frame: its payload with " OK!" appended, behind a new length. */
  function Reply(frame: seq<Byte>): seq<Byte>
    requires |frame| >= 4
  {
    BigEndian(|frame|, 4) + frame[4..] + OK
  }

  ghost predicate Framed(frames: seq<seq<Byte>>) {
    forall i :: 0 <= i < |frames| ==> |frames[i]| >= 4
  }

  ghost function Replies(frames: seq<seq<Byte>>): (rs: seq<seq<Byte>>)
    requires Framed(frames)
    ensures |rs| == |frames|
  {
    seq(|frames|, i requires 0 <= i < |frames| => Reply(frames[i]))
  }

  ghost function Scan(s: seq<Byte>): Parsed {
    FrameAtStable();
    Parse(FrameAt, s)
  }

  lemma {:induction false} ScanFramed(s: seq<Byte>)
    ensures Framed(Scan(s).frames)
    decreases |s|
  {
    FrameAtStable();
    if FrameAt(s).Frame? {
      ScanFramed(s[FrameAt(s).size..]);
    }
  }

  // ---- the machine ----

  ghost function Fresh(owned: bool): Conn {
    Conn(Connecting, false, owned, {}, [], [], [], [], 0, [])
  }

  /** Runs the close callback, which may call back into the connection. */
  ghost function Fire(s: Conn, cb: seq<Call>): Conn
    decreases cb, 1
  {
    ExecAll(s.(fired := s.fired + 1), cb)
  }

  ghost function CloseInThread(s: Conn, cb: seq<Call>): Conn
    decreases cb, 2
  {
    if s.status == Disconnected then s
    else if s.wbuf == [] then Fire(s.(status := Disconnected, owned := false), cb)
    else s.(status := Disconnecting, events := s.events + {WriteEvents})
  }

  ghost function CloseNow(s: Conn, cb: seq<Call>): Conn
    decreases cb, 3
  {
    if s.closeRequested then s
    else
      var s1 := s.(closeRequested := true);
      if s.owned then CloseInThread(s1, cb) else s1
  }

  ghost function WriteInThread(s: Conn, message: seq<Byte>, io: Io, cb: seq<Call>): Conn
    decreases cb, 3
  {
    if s.status != Connecting then s
    else if s.wbuf == [] && io.Fatal? then AfterWrite(CloseInThread(s, cb))
    else AfterWrite(Accepted(s, message, Direct(s, message, io)))
  }

  /** How much of a message goes straight to the kernel. */
  ghost function Direct(s: Conn, message: seq<Byte>, io: Io): (k: nat)
    ensures k <= |message|
  {
    if s.wbuf == [] && io.Moved? then Min(io.n, |message|) else 0
  }

  ghost function Accepted(s: Conn, message: seq<Byte>, k: nat): Conn
    requires k <= |message|
  {
    s.(accepted := s.accepted + [message], sent := s.sent + message[..k], wbuf := s.wbuf + message[k..])
  }

  ghost function AfterWrite(s: Conn): Conn {
    if s.wbuf != [] then s.(events := s.events + {WriteEvents}) else s
  }

  ghost function Flush(s: Conn, io: Io, cb: seq<Call>): Conn
    decreases cb, 4
  {
    if s.status == Disconnected then s
    else match io
      case Moved(n) => AfterFlush(Handed(s, Min(n, |s.wbuf|)), cb)
      case Retry => AfterFlush(s, cb)
      case Fatal => AfterFlush(CloseNow(s, cb), cb)
  }

  /** The kernel takes the first `k` waiting bytes. */
  ghost function Handed(s: Conn, k: nat): Conn
    requires k <= |s.wbuf|
  {
    s.(sent := s.sent + s.wbuf[..k], wbuf := s.wbuf[k..])
  }

  /** Once nothing waits, stop watching for writability and complete a deferred close. */
  ghost function AfterFlush(s: Conn, cb: seq<Call>): Conn
    decreases cb, 2
  {
    if s.wbuf != [] then s
    else
      var s1 := s.(events := s.events - {WriteEvents});
      if s.status != Disconnecting then s1
      else Fire(s1.(status := Disconnected), cb).(owned := false)
  }

  ghost function ActivateInThread(s: Conn): Conn {
    if s.status == Connecting then s.(events := {ReadEvents, CloseEvents}) else s
  }

  ghost function IoAt(ios: seq<Io>, i: nat): Io {
    if i < |ios| then ios[i] else Retry
  }

  ghost function WriteNow(s: Conn, message: seq<Byte>, io: Io, cb: seq<Call>): Conn
    decreases cb, 4
  {
    if s.owned then WriteInThread(s, message, io, cb) else s
  }

  /** The default handler over the buffered bytes `r`, the `i`-th reply being next. */
  ghost function Serve(s: Conn, r: seq<Byte>, i: nat, ios: seq<Io>, cb: seq<Call>): Conn
    decreases cb, 5, |r|
  {
    match FrameAt(r)
    case NeedMore => s.(rbuf := r)
    case Reject => CloseNow(s.(rbuf := r), cb)
    case Frame(n) =>
      Serve(WriteNow(s.(rbuf := r[n..]), Reply(r[..n]), IoAt(ios, i), cb), r[n..], i + 1, ios, cb)
  }

  ghost function Receive(s: Conn, input: Input, ios: seq<Io>, cb: seq<Call>): Conn
    decreases cb, 6
  {
    if s.status != Connecting then s
    else match input
      case Data(bytes) => if bytes == [] then CloseNow(s, cb) else Serve(s, s.rbuf + bytes, 0, ios, cb)
      case ReadRetry => s
      case ReadFatal => CloseNow(s, cb)
  }

  ghost function Perform(s: Conn, a: Act, cb: seq<Call>): Conn
    decreases cb, 5
  {
    match a
    case Say(m, io) => WriteNow(s, m, io, cb)
    case Hang => CloseNow(s, cb)
  }

  ghost function PerformAll(s: Conn, acts: seq<Act>, cb: seq<Call>): Conn
    decreases cb, 6, |acts|
  {
    if acts == [] then s else PerformAll(Perform(s, acts[0], cb), acts[1..], cb)
  }

  /** A read whose handler is the user's: it takes some bytes off the buffer, then acts. */
  ghost function ReceiveWith(s: Conn, bytes: seq<Byte>, taken: nat, acts: seq<Act>, cb: seq<Call>): Conn
    decreases cb, 7
  {
    if s.status != Connecting then s
    else if bytes == [] then CloseNow(s, cb)
    else
      var all := s.rbuf + bytes;
      PerformAll(s.(rbuf := all[Min(taken, |all|)..]), acts, cb)
  }

  /** The part of a cross-thread call that runs on the calling thread. */
  ghost function PostFrom(s: Conn, task: Task): Conn {
    if task.CloseTask? && s.closeRequested then s
    else
      var s1 := if task.CloseTask? then s.(closeRequested := true) else s;
      if s.owned then s1.(posted := s1.posted + [task]) else s1
  }

  ghost function RunPosted(s: Conn, io: Io, cb: seq<Call>): Conn
    decreases cb, 4
  {
    if s.posted == [] then s
    else
      var s1 := s.(posted := s.posted[1..]);
      match s.posted[0]
      case WriteTask(m) => WriteInThread(s1, m, io, cb)
      case CloseTask => CloseInThread(s1, cb)
      case ActivateTask => ActivateInThread(s1)
  }

  ghost function Exec(s: Conn, c: Call): Conn
    decreases c
  {
    match c
    case Activate => if s.owned then ActivateInThread(s) else s
    case Write(m, io, cb) => WriteNow(s, m, io, cb)
    case WriteFd(io, cb) => Flush(s, io, cb)
    case Close(cb) => CloseNow(s, cb)
    case Read(input, ios, cb) => Receive(s, input, ios, cb)
    case ReadWith(bytes, taken, acts, cb) => ReceiveWith(s, bytes, taken, acts, cb)
    case Post(task) => PostFrom(s, task)
    case RunTask(io, cb) => RunPosted(s, io, cb)
  }

  ghost function ExecAll(s: Conn, cs: seq<Call>): Conn
    decreases cs, 0
  {
    if cs == [] then s else ExecAll(Exec(s, cs[0]), cs[1..])
  }

  // ---- event dispatch ----

  datatype Event = Readable | Writable | Error | Hangup

  /** The handlers `Channel::Handle` runs for a set of ready events, in order. */
  ghost function Handlers(active: set<Event>, input: Input, ios: seq<Io>, io: Io, cb: seq<Call>): seq<Call> {
    (if Readable in active then [Read(input, ios, cb)] else [])
    + (if Writable in active then [WriteFd(io, cb)] else [])
    + (if Error in active then [Close(cb)] else [])
    + (if Hangup in active then [Close(cb)] else [])
  }

  ghost function ExecIf(b: bool, s: Conn, c: Call): Conn {
    if b then Exec(s, c) else s
  }

  lemma {:induction false} ExecAllAppend(s: Conn, a: seq<Call>, b: seq<Call>)
    ensures ExecAll(s, a + b) == ExecAll(ExecAll(s, a), b)
    decreases |a|
  {
    if a == [] {
      assert a + b == b;
    } else {
      assert (a + b)[1..] == a[1..] + b;
      ExecAllAppend(Exec(s, a[0]), a[1..], b);
    }
  }

  lemma ExecOne(b: bool, s: Conn, c: Call)
    ensures ExecAll(s, if b then [c] else []) == ExecIf(b, s, c)
  {
    if b { assert ExecAll(Exec(s, c), [c][1..]) == Exec(s, c); }
  }

  lemma HandlersUnfold(s: Conn, active: set<Event>, input: Input, ios: seq<Io>, io: Io, cb: seq<Call>)
    ensures var s1 := ExecIf(Readable in active, s, Read(input, ios, cb));
            var s2 := ExecIf(Writable in active, s1, WriteFd(io, cb));
            var s3 := ExecIf(Error in active, s2, Close(cb));
            ExecAll(s, Handlers(active, input, ios, io, cb)) == ExecIf(Hangup in active, s3, Close(cb))
  {
    var r, w, e, h := Readable in active, Writable in active, Error in active, Hangup in active;
    var a := if r then [Read(input, ios, cb)] else [];
    var b := if w then [WriteFd(io, cb)] else [];
    var c := if e then [Close(cb)] else [];
    var d := if h then [Close(cb)] else [];
    var s1 := ExecIf(r, s, Read(input, ios, cb));
    var s2 := ExecIf(w, s1, WriteFd(io, cb));
    var s3 := ExecIf(e, s2, Close(cb));
    ExecAllAppend(s, a + b + c, d);
    ExecAllAppend(s, a + b, c);
    ExecAllAppend(s, a, b);
    ExecOne(r, s, Read(input, ios, cb));
    ExecOne(w, s1, WriteFd(io, cb));
    ExecOne(e, s2, Close(cb));
    ExecOne(h, s3, Close(cb));
  }
}
