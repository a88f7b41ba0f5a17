/** The wheel and the connections together: data refreshes a connection's heartbeat object, and
    the object's end closes the connection. */
module Heartbeat {
  import opened Bytes
  import opened Connection
  import opened ConnectionProofs
  import TW = TimerWheel

  type Id = TW.Id

  /** The connections of one loop, by heartbeat object. `history` is what the wheel has been asked
      for, `asked` the connections whose own events asked them to close. */
  datatype Site = Site(wheel: TW.Wheel, conns: map<Id, Conn>, history: seq<TW.Op>, asked: set<Id>)

  /** A tick comes with what the close callback of each connection it closes will do. */
  datatype Happening = Join | On(id: Id, call: Call) | Beat(cbs: map<Id, seq<Call>>)

  function CallbackOf(cbs: map<Id, seq<Call>>, id: Id): seq<Call> {
    if id in cbs then cbs[id] else []
  }

  function Empty(n: nat): Site {
    Site(TW.Start(n), map[], [], {})
  }

  /** The call reads data, and so reports a sign of life. */
  predicate Lives(s: Conn, c: Call) {
    s.status == Connecting && match c
                             case Read(Data(bytes), _, _) => bytes != []
                             case ReadWith(bytes, _, _, _) => bytes != []
                             case _ => false
  }

  function Ask(x: Site, op: TW.Op): Site
    requires x.wheel.Shaped()
  {
    x.(wheel := TW.Step(x.wheel, op), history := x.history + [op])
  }

  ghost function Step(x: Site, h: Happening): (y: Site)
    requires x.wheel.Shaped()
    ensures y.wheel.Shaped()
  {
    match h
    case Join => Ask(x, TW.Attach).(conns := x.conns[x.wheel.next := Fresh(true)])
    case On(id, c) =>
      if id !in x.conns then x
      else
        var s := x.conns[id];
        var t := Exec(s, c);
        var x1 := if Lives(s, c) then Ask(x, TW.Refresh(id)) else x;
        x1.(conns := x.conns[id := t],
            asked := if t.closeRequested && !s.closeRequested then x.asked + {id} else x.asked)
    case Beat(cbs) =>
      var x1 := Ask(x, TW.Tick);
      x1.(conns := map id | id in x.conns ::
                     if Dies(x, x1, id) then CloseNow(x.conns[id], CallbackOf(cbs, id)) else x.conns[id])
  }

  predicate Dies(x: Site, x1: Site, id: Id) {
    id in x1.wheel.closed && id !in x.wheel.closed
  }

  ghost function Run(n: nat, hs: seq<Happening>): (x: Site)
    requires n > 0
    ensures x.wheel.Shaped()
    decreases |hs|
  {
    if hs == [] then Empty(n) else Step(Run(n, hs[..|hs| - 1]), hs[|hs| - 1])
  }

  // ---- the invariant ----

  ghost predicate ConnOk(x: Site, id: Id) {
    && (id in x.conns <==> id < x.wheel.next)
    && (id in x.asked || id in x.wheel.closed ==> id in x.conns)
    && (id in x.conns ==>
          var s := x.conns[id];
          && Good(s) && Settled(s) && Heeded(s)
          && (s.closeRequested <==> id in x.asked || id in x.wheel.closed))
  }

  ghost predicate Inv(x: Site, n: nat) {
    && 0 < n < TW.WORD / 2
    && x.wheel == TW.Run(TW.Start(n), x.history)
    && forall id :: ConnOk(x, id)
  }

  lemma AskKeeps(x: Site, n: nat, op: TW.Op)
    requires n > 0 && x.wheel == TW.Run(TW.Start(n), x.history)
    ensures x.wheel.Shaped() && Ask(x, op).wheel == TW.Run(TW.Start(n), Ask(x, op).history)
  {
    var h := x.history + [op];
    assert h[..|h| - 1] == x.history;
  }

  /** What the wheel does to its record of closed objects. */
  lemma WheelFacts(x: Site, n: nat, op: TW.Op, id: Id)
    requires Inv(x, n)
    ensures x.wheel.Shaped()
    ensures var y := Ask(x, op);
            && y.wheel.next == x.wheel.next + (if op.Attach? then 1 else 0)
            && (op.Tick? || y.wheel.closed == x.wheel.closed)
            && (id in x.wheel.closed ==> id in y.wheel.closed)
            && (id in y.wheel.closed ==> id < y.wheel.next)
            && (id in y.wheel.closed && id !in x.wheel.closed ==> id < x.wheel.next)
  {
    AskKeeps(x, n, op);
    TW.RunRefines(n, x.history);
    TW.RunRefines(n, Ask(x, op).history);
    var t, t' := TW.RunTable(n, x.history), TW.RunTable(n, Ask(x, op).history);
    assert TW.Agree(x.wheel, t, id);
    assert TW.Agree(Ask(x, op).wheel, t', id);
  }

  lemma CloseNowRequests(s: Conn, cb: seq<Call>)
    requires Good(s)
    ensures CloseNow(s, cb).closeRequested
  {
    CloseNowGood(s, cb);
    if !s.closeRequested && s.owned {
      CloseInThreadGood(s.(closeRequested := true), cb);
    }
  }

  lemma JoinOk(x: Site, n: nat, id: Id)
    requires Inv(x, n)
    ensures x.wheel.Shaped() && ConnOk(Step(x, Join), id)
  {
    WheelFacts(x, n, TW.Attach, id);
    assert ConnOk(x, id) && ConnOk(x, x.wheel.next);
  }

  lemma OnOk(x: Site, n: nat, i: Id, c: Call, id: Id)
    requires Inv(x, n)
    ensures x.wheel.Shaped() && ConnOk(Step(x, On(i, c)), id)
  {
    WheelFacts(x, n, TW.Refresh(i), id);
    assert ConnOk(x, id) && ConnOk(x, i);
    if i in x.conns { ExecKeeps(x.conns[i], c); }
  }

  lemma BeatOk(x: Site, n: nat, cbs: map<Id, seq<Call>>, id: Id)
    requires Inv(x, n)
    ensures x.wheel.Shaped() && ConnOk(Step(x, Beat(cbs)), id)
  {
    WheelFacts(x, n, TW.Tick, id);
    assert ConnOk(x, id);
    if id in x.conns {
      CloseNowGood(x.conns[id], CallbackOf(cbs, id));
      CloseNowRequests(x.conns[id], CallbackOf(cbs, id));
    }
  }

  lemma StepKeeps(x: Site, n: nat, h: Happening)
    requires Inv(x, n)
    ensures x.wheel.Shaped() && Inv(Step(x, h), n)
  {
    var y := Step(x, h);
    match h
    case Join =>
      AskKeeps(x, n, TW.Attach);
      forall id ensures ConnOk(y, id) { JoinOk(x, n, id); }
    case On(i, c) =>
      AskKeeps(x, n, TW.Refresh(i));
      forall id ensures ConnOk(y, id) { OnOk(x, n, i, c, id); }
    case Beat(cbs) =>
      AskKeeps(x, n, TW.Tick);
      forall id ensures ConnOk(y, id) { BeatOk(x, n, cbs, id); }
  }

  lemma {:induction false} RunKeeps(n: nat, hs: seq<Happening>)
    requires 0 < n < TW.WORD / 2
    ensures Inv(Run(n, hs), n)
    decreases |hs|
  {
    if hs == [] {
      forall id ensures ConnOk(Empty(n), id) {}
    } else {
      RunKeeps(n, hs[..|hs| - 1]);
      StepKeeps(Run(n, hs[..|hs| - 1]), n, hs[|hs| - 1]);
    }
  }

  // ---- idle time, told by what happened ----

  /** The call brings at least one byte of data. */
  predicate Delivers(c: Call) {
    match c
    case Read(Data(bytes), _, _) => |bytes| > 0
    case ReadWith(bytes, _, _, _) => |bytes| > 0
    case _ => false
  }

  function Joins(hs: seq<Happening>): nat
    decreases |hs|
  {
    if hs == [] then 0 else Joins(hs[..|hs| - 1]) + if hs[|hs| - 1].Join? then 1 else 0
  }

  /** Ticks since connection `id` joined or last received data while it was open, -1 before it joined.
      After `n` of them data counts no more. */
  ghost function Quiet(n: nat, hs: seq<Happening>, id: Id): (k: int)
    requires n > 0
    ensures k >= -1
    decreases |hs|
  {
    if hs == [] then -1
    else
      var before, k := hs[..|hs| - 1], Quiet(n, hs[..|hs| - 1], id);
      match hs[|hs| - 1]
      case Join => if Joins(before) == id then 0 else k
      case Beat(_) => if k == -1 then -1 else k + 1
      case On(i, c) =>
        var conns := Run(n, before).conns;
        if i == id && 0 <= k < n && Delivers(c) && id in conns && conns[id].status == Connecting then 0 else k
  }

  lemma IdleSnoc(n: nat, ops: seq<TW.Op>, op: TW.Op, id: Id)
    ensures var k := TW.Idle(n, ops, id);
            TW.Idle(n, ops + [op], id)
            == match op
               case Attach => if TW.Attached(ops) == id then 0 else k
               case Refresh(i) => if i == id && 0 <= k < n then 0 else k
               case Tick => if k == -1 then -1 else k + 1
  {
    assert (ops + [op])[..|ops|] == ops;
  }

  lemma AttachedSnoc(ops: seq<TW.Op>, op: TW.Op)
    ensures TW.Attached(ops + [op]) == TW.Attached(ops) + if op.Attach? then 1 else 0
  {
    assert (ops + [op])[..|ops|] == ops;
  }

  /** The wheel is told of exactly what keeps a connection alive. */
  lemma {:induction false} QuietIsIdle(n: nat, hs: seq<Happening>, id: Id)
    requires 0 < n < TW.WORD / 2
    ensures TW.Idle(n, Run(n, hs).history, id) == Quiet(n, hs, id)
    ensures TW.Attached(Run(n, hs).history) == Joins(hs) == Run(n, hs).wheel.next
    decreases |hs|
  {
    if hs != [] {
      var before, h := hs[..|hs| - 1], hs[|hs| - 1];
      var x := Run(n, before);
      QuietIsIdle(n, before, id);
      RunKeeps(n, before);
      assert ConnOk(x, id);
      IdleStep(n, x, h, id);
    }
  }

  lemma IdleStep(n: nat, x: Site, h: Happening, id: Id)
    requires Inv(x, n)
    ensures x.wheel.Shaped()
    ensures var y, k := Step(x, h), TW.Idle(n, x.history, id);
            && y.wheel.next == x.wheel.next + (if h.Join? then 1 else 0)
            && TW.Attached(y.history) == TW.Attached(x.history) + (if h.Join? then 1 else 0)
            && TW.Idle(n, y.history, id)
               == match h
                  case Join => if TW.Attached(x.history) == id then 0 else k
                  case Beat(_) => if k == -1 then -1 else k + 1
                  case On(i, c) =>
                    if i == id && 0 <= k < n && Delivers(c) && id in x.conns && x.conns[id].status == Connecting
                    then 0 else k
  {
    match h
    case Join => Told(n, x, TW.Attach, id);
    case Beat(_) => Told(n, x, TW.Tick, id);
    case On(i, c) =>
      if i in x.conns && Delivers(c) && x.conns[i].status == Connecting {
        Told(n, x, TW.Refresh(i), id);
        assert Step(x, h).history == Ask(x, TW.Refresh(i)).history;
      } else {
        assert Step(x, h).history == x.history;
      }
  }

  lemma Told(n: nat, x: Site, op: TW.Op, id: Id)
    requires Inv(x, n)
    ensures x.wheel.Shaped() && Ask(x, op).wheel.next == x.wheel.next + (if op.Attach? then 1 else 0)
    ensures TW.Attached(Ask(x, op).history) == TW.Attached(x.history) + (if op.Attach? then 1 else 0)
    ensures var k := TW.Idle(n, x.history, id);
            TW.Idle(n, Ask(x, op).history, id)
            == match op
               case Attach => if TW.Attached(x.history) == id then 0 else k
               case Refresh(i) => if i == id && 0 <= k < n then 0 else k
               case Tick => if k == -1 then -1 else k + 1
  {
    WheelFacts(x, n, op, id);
    IdleSnoc(n, x.history, op, id);
    AttachedSnoc(x.history, op);
  }

  lemma Joined(n: nat, x: Site, id: Id)
    requires Inv(x, n)
    ensures x.wheel.Shaped() && (id in x.conns <==> TW.Idle(n, x.history, id) >= 0)
  {
    assert ConnOk(x, id);
    TW.RunRefines(n, x.history);
    TW.TableIdle(n, x.history, id);
  }

  /** What a connection lives through: its own calls from when it joined, and a close at the tick at
      which its time is up. */
  ghost function Story(n: nat, hs: seq<Happening>, id: Id): seq<Call>
    requires n > 0
    decreases |hs|
  {
    if hs == [] then []
    else
      var before := hs[..|hs| - 1];
      Story(n, before, id) + Chapter(n, Quiet(n, before, id), hs[|hs| - 1], id)
  }

  ghost function Chapter(n: nat, quiet: int, h: Happening, id: Id): seq<Call> {
    match h
    case Join => []
    case On(i, c) => if i == id && quiet >= 0 then [c] else []
    case Beat(cbs) => if quiet == n - 1 then [Close(CallbackOf(cbs, id))] else []
  }

  lemma TimeIsUp(x: Site, n: nat, id: Id)
    requires Inv(x, n)
    ensures x.wheel.Shaped() && (Dies(x, Ask(x, TW.Tick), id) <==> TW.Idle(n, x.history, id) == n - 1)
  {
    AskKeeps(x, n, TW.Tick);
    TW.ClosesOnTime(n, x.history, id);
    TW.ClosesOnTime(n, Ask(x, TW.Tick).history, id);
    IdleSnoc(n, x.history, TW.Tick, id);
  }

  lemma BeatTells(n: nat, x: Site, cbs: map<Id, seq<Call>>, id: Id)
    requires Inv(x, n) && id in x.conns
    ensures x.wheel.Shaped() && id in Step(x, Beat(cbs)).conns
    ensures Step(x, Beat(cbs)).conns[id]
         == ExecAll(x.conns[id], Chapter(n, TW.Idle(n, x.history, id), Beat(cbs), id))
  {
    var c := Close(CallbackOf(cbs, id));
    TimeIsUp(x, n, id);
    ExecOne(TW.Idle(n, x.history, id) == n - 1, x.conns[id], c);
    assert Exec(x.conns[id], c) == CloseNow(x.conns[id], CallbackOf(cbs, id));
  }

  lemma ChapterTells(n: nat, x: Site, h: Happening, id: Id)
    requires Inv(x, n)
    ensures x.wheel.Shaped()
    ensures var y, cs := Step(x, h), Chapter(n, TW.Idle(n, x.history, id), h, id);
            if id in x.conns then id in y.conns && y.conns[id] == ExecAll(x.conns[id], cs)
            else cs == [] && (id in y.conns <==> h.Join? && id == x.wheel.next)
                 && (id in y.conns ==> y.conns[id] == Fresh(true))
  {
    Joined(n, x, id);
    assert ConnOk(x, id) && ConnOk(x, x.wheel.next);
    match h
    case Join =>
    case On(i, c) => if id in x.conns { ExecOne(i == id, x.conns[id], c); }
    case Beat(cbs) => if id in x.conns { BeatTells(n, x, cbs, id); }
  }

  /** Each connection is where its own story has brought it: no call is lost, none comes from another
      connection, and the wheel adds exactly one close, when its time is up. */
  lemma {:induction false} ConnectionsLiveTheirStory(n: nat, hs: seq<Happening>, id: Id)
    requires 0 < n < TW.WORD / 2
    ensures var x := Run(n, hs);
            && (id in x.conns <==> id < Joins(hs))
            && (id in x.conns ==> x.conns[id] == ExecAll(Fresh(true), Story(n, hs, id)))
            && (id !in x.conns ==> Story(n, hs, id) == [])
    decreases |hs|
  {
    if hs != [] {
      var before, h := hs[..|hs| - 1], hs[|hs| - 1];
      var x := Run(n, before);
      ConnectionsLiveTheirStory(n, before, id);
      QuietIsIdle(n, before, id);
      RunKeeps(n, before);
      ChapterTells(n, x, h, id);
      ExecAllAppend(Fresh(true), Story(n, before, id), Chapter(n, Quiet(n, before, id), h, id));
    }
  }

  // ---- what it means ----

  /** Over every run of a loop's connections: a connection has been asked to close exactly when an
      event of its own asked, or `n` ticks have passed since its last data. One that has been idle
      that long no longer accepts or reads anything, unless a close is already queued for it, and
      one with nothing left to send is closed, its callback having run once. */
  lemma IdleConnectionsClose(n: nat, hs: seq<Happening>, id: Id)
    requires 0 < n < TW.WORD / 2
    ensures var x := Run(n, hs);
            id in x.conns ==>
              var s, idle := x.conns[id], Quiet(n, hs, id);
              && (s.closeRequested <==> id in x.asked || idle >= n)
              && (idle >= n ==> s.status != Connecting || CloseTask in s.posted)
              && (s.status == Disconnected ==> s.fired == 1 && s.sent == Flatten(s.accepted))
              && (s.status == Disconnecting ==> s.wbuf != [])
  {
    RunKeeps(n, hs);
    var x := Run(n, hs);
    QuietIsIdle(n, hs, id);
    TW.ClosesOnTime(n, x.history, id);
    assert ConnOk(x, id);
    if id in x.conns {
      var s := x.conns[id];
      assert s.wbuf == [] ==> s.sent + s.wbuf == s.sent;
    }
  }
}
