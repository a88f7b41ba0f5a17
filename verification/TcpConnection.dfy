/** The connection object over its two buffers; every method is proved to take the step of the
    `Connection` machine, so all that is proved of the machine's runs holds of the object. */
module TcpConnection {
  import opened Bytes
  import opened Streaming
  import opened Buffer
  import opened Connection
  import opened ConnectionProofs

  class TcpConnection {
    var status: Status
    var closeRequested: bool
    var owned: bool
    var events: set<Interest>
    const readBuffer: Buffer
    const writeBuffer: Buffer
    var sent: seq<Byte>
    ghost var accepted: seq<seq<Byte>>
    var fired: nat
    var posted: seq<Task>

    ghost predicate Separate()
      reads readBuffer, writeBuffer
    {
      && readBuffer != writeBuffer && readBuffer.data != writeBuffer.data
      && readBuffer.Valid() && writeBuffer.Valid()
    }

    ghost function View(): Conn
      requires Separate()
      reads this, readBuffer, writeBuffer, readBuffer.data, writeBuffer.data
    {
      Conn(status, closeRequested, owned, events, readBuffer.Contents(), writeBuffer.Contents(),
           sent, accepted, fired, posted)
    }

    ghost predicate Valid()
      reads this, readBuffer, writeBuffer, readBuffer.data, writeBuffer.data
    {
      Separate() && Good(View())
    }

    /** The buffers may have moved to new memory, never to anyone else's. */
    twostate predicate Private()
      reads readBuffer, writeBuffer
    {
      && (readBuffer.data == old(readBuffer.data) || fresh(readBuffer.data))
      && (writeBuffer.data == old(writeBuffer.data) || fresh(writeBuffer.data))
    }

    constructor (loop: bool, readSize: nat, writeSize: nat)
      ensures Valid() && View() == Fresh(loop)
      ensures fresh(readBuffer) && fresh(writeBuffer) && fresh(readBuffer.data) && fresh(writeBuffer.data)
    {
      status, closeRequested, owned, events := Connecting, false, loop, {};
      var rb := new Buffer(readSize);
      var wb := new Buffer(writeSize);
      readBuffer, writeBuffer := rb, wb;
      sent, accepted, fired, posted := [], [], 0, [];
    }

    method CloseInThread(cb: seq<Call>)
      requires Valid() && (closeRequested || writeBuffer.Empty())
      modifies this, readBuffer, writeBuffer, readBuffer.data, writeBuffer.data
      ensures Valid() && Private()
      ensures View() == Connection.CloseInThread(old(View()), cb)
      decreases cb, 2
    {
      if status == Disconnected {
        return;
      }
      if writeBuffer.Empty() {
        status := Disconnected;
        owned := false;
        fired := fired + 1;
        Reenter(cb);
      } else {
        status := Disconnecting;
        events := events + {WriteEvents};
      }
    }

    method Close(cb: seq<Call>)
      requires Valid()
      modifies this, readBuffer, writeBuffer, readBuffer.data, writeBuffer.data
      ensures Valid() && Private()
      ensures View() == CloseNow(old(View()), cb)
      decreases cb, 3
    {
      if closeRequested {
        return;
      }
      closeRequested := true;
      if owned {
        CloseInThread(cb);
      }
    }

    method WriteInThread(message: seq<Byte>, io: Io, cb: seq<Call>)
      requires Valid()
      modifies this, readBuffer, writeBuffer, readBuffer.data, writeBuffer.data
      ensures Valid() && Private()
      ensures View() == Connection.WriteInThread(old(View()), message, io, cb)
      decreases cb, 3
    {
      if status != Connecting {
        return;
      }
      if writeBuffer.Empty() && io.Fatal? {
        CloseInThread(cb);
      } else {
        Accept(message, io);
      }
      WatchWrites();
    }

    method WatchWrites()
      requires Valid()
      modifies this`events
      ensures Valid() && View() == AfterWrite(old(View()))
    {
      if !writeBuffer.Empty() {
        events := events + {WriteEvents};
      }
    }

    /** The non-failing half of a write: straight to the kernel while nothing waits, the rest queued. */
    method Accept(message: seq<Byte>, io: Io)
      requires Valid() && status == Connecting && (writeBuffer.Empty() ==> !io.Fatal?)
      modifies this`sent, this`accepted, writeBuffer, writeBuffer.data
      ensures Valid() && Private()
      ensures View() == Accepted(old(View()), message, Direct(old(View()), message, io))
    {
      ghost var before := View();
      AcceptedGood(before, message, Direct(before, message, io));
      accepted := accepted + [message];
      if writeBuffer.Empty() && io.Moved? {
        var k := Min(io.n, |message|);
        sent := sent + message[..k];
        if k != |message| {
          writeBuffer.WriteBuffer(message[k..]);
        }
      } else {
        assert message[0..] == message && sent + message[..0] == sent;
        writeBuffer.WriteBuffer(message);
      }
      assert readBuffer.Contents() == before.rbuf;
    }

    method Write(message: seq<Byte>, io: Io, cb: seq<Call>)
      requires Valid()
      modifies this, readBuffer, writeBuffer, readBuffer.data, writeBuffer.data
      ensures Valid() && Private()
      ensures View() == WriteNow(old(View()), message, io, cb)
      decreases cb, 4
    {
      if owned {
        WriteInThread(message, io, cb);
      }
    }

    /** The writable event: hand waiting bytes to the kernel and finish a deferred close. */
    method WriteFd(io: Io, cb: seq<Call>)
      requires Valid()
      modifies this, readBuffer, writeBuffer, readBuffer.data, writeBuffer.data
      ensures Valid() && Private()
      ensures View() == Flush(old(View()), io, cb)
      decreases cb, 4, 1
    {
      if status == Disconnected {
        return;
      }
      match io {
        case Moved(n) => FlushSome(Min(n, writeBuffer.Size()), cb);
        case Retry => FinishClose(cb);
        case Fatal => FlushFailed(cb);
      }
    }

    method FlushSome(k: nat, cb: seq<Call>)
      requires Valid() && k <= |View().wbuf|
      modifies this, readBuffer, writeBuffer, readBuffer.data, writeBuffer.data
      ensures Valid() && Private()
      ensures View() == AfterFlush(Handed(old(View()), k), cb)
      decreases cb, 3
    {
      HandedFlushed(View(), k);
      Hand(k);
      FinishClose(cb);
    }

    method FlushFailed(cb: seq<Call>)
      requires Valid()
      modifies this, readBuffer, writeBuffer, readBuffer.data, writeBuffer.data
      ensures Valid() && Private()
      ensures View() == AfterFlush(CloseNow(old(View()), cb), cb)
      decreases cb, 4, 0
    {
      Close(cb);
      FinishClose(cb);
    }

    method Hand(k: nat)
      requires Separate() && k <= writeBuffer.Size()
      modifies this`sent, writeBuffer
      ensures Separate() && writeBuffer.data == old(writeBuffer.data)
      ensures View() == Handed(old(View()), k)
    {
      var out := writeBuffer.WriteFd(k);
      sent := sent + out;
    }

    method FinishClose(cb: seq<Call>)
      requires Separate() && Flushed(View())
      modifies this, readBuffer, writeBuffer, readBuffer.data, writeBuffer.data
      ensures Valid() && Private()
      ensures View() == AfterFlush(old(View()), cb)
      decreases cb, 2
    {
      if writeBuffer.Empty() {
        events := events - {WriteEvents};
        if status == Disconnecting {
          Farewell(cb);
        }
      }
    }

    method Farewell(cb: seq<Call>)
      requires Separate() && Flushed(View()) && status == Disconnecting && View().wbuf == []
      modifies this, readBuffer, writeBuffer, readBuffer.data, writeBuffer.data
      ensures Valid() && Private()
      ensures View() == Fire(old(View()).(status := Disconnected), cb).(owned := false)
      decreases cb, 1
    {
      ghost var s := View();
      status := Disconnected;
      fired := fired + 1;
      assert View() == s.(status := Disconnected, fired := s.fired + 1);
      Reenter(cb);
      ghost var t := View();
      owned := false;
      assert View() == t.(owned := false);
    }

    method Activate()
      requires Valid()
      modifies this`events
      ensures Valid()
      ensures View() == Exec(old(View()), Call.Activate)
    {
      if owned {
        ActivateInThread();
      }
    }

    /** Takes a whole frame off the read buffer, if one is there. */
    method NextFrame() returns (v: Verdict, frame: seq<Byte>)
      requires Separate()
      modifies readBuffer
      ensures Separate() && readBuffer.data == old(readBuffer.data)
      ensures v == FrameAt(old(readBuffer.Contents()))
      ensures v.Frame? ==> v.size <= |old(readBuffer.Contents())| && frame == old(readBuffer.Contents())[..v.size]
      ensures v.Frame? ==> readBuffer.Contents() == old(readBuffer.Contents())[v.size..]
      ensures !v.Frame? ==> readBuffer.Contents() == old(readBuffer.Contents())
    {
      v, frame := NeedMore, [];
      if readBuffer.Size() < 4 {
        return;
      }
      var head := readBuffer.Peek(4);
      var len := FromBigEndian(head.value);
      if len > MAX_FRAME {
        v := Reject;
      } else if readBuffer.Size() >= len + 4 {
        v := Frame(len + 4);
        var header := readBuffer.ReadBuffer(4);
        var message := readBuffer.ReadBuffer(len);
        frame := header.value + message.value;
        Assoc(header.value, message.value, readBuffer.Contents());
      }
    }

    /** One turn of the default handler, the `i`-th reply being next; tells whether to go on. */
    method Turn(i: nat, ios: seq<Io>, cb: seq<Call>) returns (again: bool)
      requires Valid()
      modifies this, readBuffer, writeBuffer, readBuffer.data, writeBuffer.data
      ensures Valid() && Private()
      ensures Serve(old(View()), old(View().rbuf), i, ios, cb)
              == if again then Serve(View(), View().rbuf, i + 1, ios, cb) else View()
      ensures again ==> |View().rbuf| < |old(View().rbuf)|
      decreases cb, 5, 0
    {
      ghost var before := View();
      var v, frame := NextFrame();
      assert before.(rbuf := before.rbuf) == before;
      if v.NeedMore? {
        return false;
      }
      if v.Reject? {
        Close(cb);
        return false;
      }
      var io := if i < |ios| then ios[i] else Retry;
      assert View() == before.(rbuf := before.rbuf[v.size..]);
      WriteKeepsInput(View(), Reply(frame), io, cb);
      Write(Reply(frame), io, cb);
      again := true;
    }

    /** The default message handler: answers whole frames, closes on an oversized length. */
    method OnMessage(ios: seq<Io>, cb: seq<Call>)
      requires Valid()
      modifies this, readBuffer, writeBuffer, readBuffer.data, writeBuffer.data
      ensures Valid() && Private()
      ensures View() == Serve(old(View()), old(readBuffer.Contents()), 0, ios, cb)
      decreases cb, 5, 1
    {
      var i, again := 0, true;
      while again
        invariant Valid() && Private()
        invariant Serve(old(View()), old(View().rbuf), 0, ios, cb)
                  == if again then Serve(View(), View().rbuf, i, ios, cb) else View()
        decreases again, |View().rbuf|
      {
        again := Turn(i, ios, cb);
        i := i + 1;
      }
    }

    /** No more bytes than the two segments of the scatter read hold. */
    ghost predicate Deliverable(input: Input)
      reads this, readBuffer
    {
      status == Connecting && input.Data? && readBuffer.Valid() ==>
        |input.bytes| <= readBuffer.data.Length - readBuffer.writePos + EXTRA
    }

    /** The scatter read into the read buffer. */
    method Fill(bytes: seq<Byte>) returns (n: nat)
      requires Valid() && status == Connecting && Deliverable(Data(bytes))
      modifies readBuffer, readBuffer.data
      ensures Valid() && Private() && View() == old(View()).(rbuf := old(View()).rbuf + bytes)
      ensures n == |bytes|
    {
      n := readBuffer.ReadFd(bytes);
      assert bytes[..n] == bytes;
    }

    /** The readable event. */
    method Read(input: Input, ios: seq<Io>, cb: seq<Call>)
      requires Valid() && Deliverable(input)
      modifies this, readBuffer, writeBuffer, readBuffer.data, writeBuffer.data
      ensures Valid() && Private()
      ensures View() == Connection.Receive(old(View()), input, ios, cb)
      decreases cb, 6
    {
      if status != Connecting {
        return;
      }
      match input {
        case Data(bytes) =>
          ghost var before := View();
          var n := Fill(bytes);
          if n == 0 {
            assert before.rbuf + bytes == before.rbuf;
            Close(cb);
          } else {
            ServeIgnoresOld(before, before.rbuf + bytes, 0, ios, cb);
            OnMessage(ios, cb);
          }
        case ReadRetry =>
        case ReadFatal => Close(cb);
      }
    }

    method Perform(a: Act, cb: seq<Call>)
      requires Valid()
      modifies this, readBuffer, writeBuffer, readBuffer.data, writeBuffer.data
      ensures Valid() && Private()
      ensures View() == Connection.Perform(old(View()), a, cb)
      decreases cb, 5
    {
      match a {
        case Say(m, io) => Write(m, io, cb);
        case Hang => Close(cb);
      }
    }

    method PerformAll(acts: seq<Act>, cb: seq<Call>)
      requires Valid()
      modifies this, readBuffer, writeBuffer, readBuffer.data, writeBuffer.data
      ensures Valid() && Private()
      ensures View() == Connection.PerformAll(old(View()), acts, cb)
      decreases cb, 6
    {
      var i := 0;
      while i < |acts|
        invariant i <= |acts| && Valid() && Private()
        invariant Connection.PerformAll(View(), acts[i..], cb) == Connection.PerformAll(old(View()), acts, cb)
      {
        assert acts[i..][1..] == acts[i + 1..];
        Perform(acts[i], cb);
        i := i + 1;
      }
    }

    /** The readable event with a handler of the user's installed. */
    method ReadWith(bytes: seq<Byte>, taken: nat, acts: seq<Act>, cb: seq<Call>)
      requires Valid() && Deliverable(Data(bytes))
      modifies this, readBuffer, writeBuffer, readBuffer.data, writeBuffer.data
      ensures Valid() && Private()
      ensures View() == Connection.ReceiveWith(old(View()), bytes, taken, acts, cb)
      decreases cb, 7
    {
      if status != Connecting {
        return;
      }
      ghost var before := View();
      var n := Fill(bytes);
      if n == 0 {
        assert before.rbuf + bytes == before.rbuf;
        Close(cb);
      } else {
        var _ := readBuffer.ReadBuffer(Min(taken, readBuffer.Size()));
        PerformAll(acts, cb);
      }
    }

    /** The half of a cross-thread call that runs on the calling thread. */
    method PostTask(task: Task)
      requires Valid()
      modifies this`closeRequested, this`posted
      ensures Valid() && View() == PostFrom(old(View()), task)
    {
      if task.CloseTask? {
        if closeRequested {
          return;
        }
        closeRequested := true;
      }
      if owned {
        posted := posted + [task];
      }
    }

    method RunPosted(io: Io, cb: seq<Call>)
      requires Valid()
      modifies this, readBuffer, writeBuffer, readBuffer.data, writeBuffer.data
      ensures Valid() && Private()
      ensures View() == Connection.RunPosted(old(View()), io, cb)
      decreases cb, 4
    {
      if posted == [] {
        return;
      }
      var task := NextPosted();
      match task {
        case WriteTask(m) => WriteInThread(m, io, cb);
        case CloseTask => CloseInThread(cb);
        case ActivateTask => ActivateInThread();
      }
    }

    method NextPosted() returns (task: Task)
      requires Valid() && posted != []
      modifies this`posted
      ensures Valid() && View() == old(View()).(posted := old(posted)[1..])
      ensures task == old(posted)[0] && (task.CloseTask? ==> closeRequested)
    {
      task := posted[0];
      posted := posted[1..];
    }

    method ActivateInThread()
      requires Valid()
      modifies this`events
      ensures Valid() && View() == Connection.ActivateInThread(old(View()))
    {
      if status == Connecting {
        events := {ReadEvents, CloseEvents};
      }
    }

    ghost predicate Feasible(c: Call)
      reads this, readBuffer
    {
      (c.Read? ==> Deliverable(c.input)) && (c.ReadWith? ==> Deliverable(Data(c.bytes)))
    }

    /** Any entry point. */
    method Run(c: Call)
      requires Valid() && Feasible(c)
      modifies this, readBuffer, writeBuffer, readBuffer.data, writeBuffer.data
      ensures Valid() && Private()
      ensures View() == Exec(old(View()), c)
      decreases c
    {
      match c {
        case Activate => this.Activate();
        case Write(m, io, cb) => this.Write(m, io, cb);
        case WriteFd(io, cb) => this.WriteFd(io, cb);
        case Close(cb) => this.Close(cb);
        case Read(input, ios, cb) => this.Read(input, ios, cb);
        case ReadWith(bytes, taken, acts, cb) => this.ReadWith(bytes, taken, acts, cb);
        case Post(task) => PostTask(task);
        case RunTask(io, cb) => RunPosted(io, cb);
      }
    }

    /** The calls a close callback makes on the connection it is told about. */
    method Reenter(cs: seq<Call>)
      requires Valid() && status == Disconnected
      modifies this, readBuffer, writeBuffer, readBuffer.data, writeBuffer.data
      ensures Valid() && Private()
      ensures View() == ExecAll(old(View()), cs)
      decreases cs, 0
    {
      if cs != [] {
        InertCall(View(), cs[0]);
        Run(cs[0]);
        Reenter(cs[1..]);
      }
    }

    method RunIf(b: bool, c: Call)
      requires Valid() && Feasible(c)
      modifies this, readBuffer, writeBuffer, readBuffer.data, writeBuffer.data
      ensures Valid() && Private()
      ensures View() == ExecIf(b, old(View()), c)
    {
      if b {
        Run(c);
      }
    }

    method HandleEnd(active: set<Event>, cb: seq<Call>)
      requires Valid()
      modifies this, readBuffer, writeBuffer, readBuffer.data, writeBuffer.data
      ensures Valid() && Private()
      ensures View() == ExecIf(Hangup in active, ExecIf(Error in active, old(View()), Call.Close(cb)), Call.Close(cb))
    {
      RunIf(Error in active, Call.Close(cb));
      RunIf(Hangup in active, Call.Close(cb));
    }

    /** Event dispatch: the handlers run in a fixed order, each after whatever the last one did. */
    method Handle(active: set<Event>, input: Input, ios: seq<Io>, io: Io, cb: seq<Call>)
      requires Valid() && Deliverable(input)
      modifies this, readBuffer, writeBuffer, readBuffer.data, writeBuffer.data
      ensures Valid() && Private()
      ensures View() == ExecAll(old(View()), Handlers(active, input, ios, io, cb))
    {
      HandlersUnfold(View(), active, input, ios, io, cb);
      RunIf(Readable in active, Call.Read(input, ios, cb));
      RunIf(Writable in active, Call.WriteFd(io, cb));
      HandleEnd(active, cb);
    }
  }
}
