/**
 The hub and the database with statements interleaved: while the hub waits for
 the message service, the write pumps and the statements of REST calls go on.
 */
module Concurrent {
  import opened Common
  import opened Envelope
  import opened HubModel
  import opened HubInvariants
  import opened Store
  import opened StoreInvariants
  import Text
  import I = Interleaving
  import S = StaleMessages
  import Sys = System

  /** The direct message the hub is busy with: its thread, and whether the row was stored once the thread is done. */
  datatype Waiting = Waiting(msg: WSMessage, row: Message, thread: nat, outcome: Option<bool>)

  /** The schedule so far stands for the tables and the threads it leads to. */
  datatype World = World(hub: HubState, schedule: seq<I.Action>, waiting: Option<Waiting>)

  const BEGIN := World(NEW_HUB, [], None)

  datatype Event =
    | HubEvent(a: Action)
    | Incoming(c: ClientId, msg: WSMessage, id: Uuid, now: int, thread: nat)
    | CallBegins(thread: nat, call: Call)
    | Statement(thread: nat)
    | Answered

  ghost predicate CanHappen(w: World, e: Event) {
    I.Exec(w.schedule).Some? &&
    var s := I.Exec(w.schedule).value;
    match e
    case HubEvent(a) => !a.Frame? && Enabled(w.hub, a) && (w.waiting.None? || a.Drain? || a.Room?)
    case Incoming(c, msg, _, _, i) => w.waiting.None? && Enabled(w.hub, Frame(c, msg, Refused)) && i !in s.threads
    case CallBegins(i, call) => !call.Send? && I.Enabled(s, I.Start(i, call)) && !w.hub.status.Panicked?
    case Statement(i) => I.Enabled(s, I.Step(i)) && !w.hub.status.Panicked?
    case Answered => w.waiting.Some? && w.waiting.value.outcome.Some? && w.hub.status == Running
  }

  /** handleUserMessage up to its call of the message service; any other frame is routed at once. */
  ghost function Receive(w: World, m: WSMessage, id: Uuid, now: int, i: nat): World {
    var text := ExtractMessageText(m.data);
    if !IsDirectMessage(m) || text.None? then w.(hub := Route(w.hub, m, Refused))
    else
      var call := Send(id, now, m.senderID, m.receiverID, text.value, false);
      var row := Message(id, m.senderID, m.receiverID, Text.TrimSpace(text.value), false, now);
      w.(schedule := w.schedule + [I.Start(i, call)],
         waiting := Some(Waiting(m, row, i, if I.Begin(call).Finished? then Some(false) else None)))
  }

  /** What the hub's caller learns from one statement of its thread. */
  ghost function Outcome(s: I.Shared, a: I.Action, p: Waiting): Option<bool>
    requires I.Enabled(s, a)
  {
    if p.outcome.None? && a == I.Step(p.thread) && I.Take(s, a).threads[p.thread].Finished?
    then Some(I.WriteAt(s, a) == Append(p.row) && !HasMessage(s.tables, p.row.id))
    else p.outcome
  }

  ghost function Happen(w: World, e: Event): World
    requires CanHappen(w, e)
  {
    match e
    case HubEvent(a) => w.(hub := Next(w.hub, a))
    case Incoming(c, msg, id, now, i) => Receive(w, Stamped(w.hub, c, msg), id, now, i)
    case CallBegins(i, call) => w.(schedule := w.schedule + [I.Start(i, call)])
    case Statement(i) =>
      var p := w.waiting;
      w.(schedule := w.schedule + [I.Step(i)],
         waiting := if p.None? then None
           else Some(p.value.(outcome := Outcome(I.Exec(w.schedule).value, I.Step(i), p.value))))
    case Answered =>
      var p := w.waiting.value;
      w.(hub := Route(w.hub, p.msg, if p.outcome.value then Stored(p.row) else Refused), waiting := None)
  }

  ghost function Run(es: seq<Event>): Option<World> {
    if es == [] then Some(BEGIN)
    else
      var w := Run(es[..|es| - 1]);
      var e := es[|es| - 1];
      if w.Some? && CanHappen(w.value, e) then Some(Happen(w.value, e)) else None
  }

  // -------------------------------------------------------------------- invariants

  /** Every direct message ever routed is the hub's own, and repeats a stored direct row. */
  ghost predicate LogRepeatsRows(log: seq<Entry>, rows: seq<Message>) {
    forall i | 0 <= i < |log| && IsDirectMessage(log[i].msg) ::
      exists m :: m in rows && !m.isGroup && log[i] == MessageEntry(m)
  }

  /** The thread works for this row: it is before one of the two checks, or before the INSERT. */
  predicate WorksFor(th: I.Thread, row: Message) {
    th == I.AtBlockCheck(row) || th == I.AtFriendCheck(row) || th == I.AtWrite(Append(row))
  }

  /** Until its thread is done the hub does not know; it takes the row for stored only if the table has it. */
  ghost predicate WaitsFor(s: I.Shared, p: Waiting) {
    && IsDirectMessage(p.msg) && ExtractMessageText(p.msg.data).Some? && !p.row.isGroup && p.thread in s.threads
    && (p.outcome.None? ==> WorksFor(s.threads[p.thread], p.row))
    && (p.outcome == Some(true) ==> p.row in s.tables.messages)
  }

  ghost predicate WaitingInv(w: World)
    requires I.Exec(w.schedule).Some?
  {
    w.waiting.Some? ==> WaitsFor(I.Exec(w.schedule).value, w.waiting.value)
  }

  /** Nobody but the hub sends messages, one at a time. */
  ghost predicate OnlyHubSends(s: I.Shared, waiting: Option<Waiting>) {
    forall i, m | i in s.threads && WorksFor(s.threads[i], m) ::
      waiting.Some? && waiting.value.thread == i && waiting.value.row == m && waiting.value.outcome.None?
  }

  /** The row that is stored but not yet acknowledged, if there is one. */
  function Unacked(waiting: Option<Waiting>): seq<Uuid> {
    if waiting.Some? && waiting.value.outcome == Some(true) then [waiting.value.row.id] else []
  }

  /** The stored ids are the acknowledged ones, in order, and then the one that is still waited for. */
  ghost predicate AcksMatch(log: seq<Entry>, rows: seq<Message>, waiting: Option<Waiting>) {
    Sys.Ids(rows) == Sys.Acked(log) + Unacked(waiting)
  }

  ghost predicate ScheduleInv(w: World)
    requires I.Exec(w.schedule).Some?
  {
    var s := I.Exec(w.schedule).value;
    WaitingInv(w) && OnlyHubSends(s, w.waiting) && AcksMatch(w.hub.log, s.tables.messages, w.waiting)
  }

  ghost predicate WorldInv(w: World) {
    && Inv(w.hub) && I.Exec(w.schedule).Some?
    && ScheduleInv(w) && LogRepeatsRows(w.hub.log, I.Exec(w.schedule).value.tables.messages)
  }

  lemma RowsStay(t: Tables, w: Write)
    ensures forall m | m in t.messages :: m in Execute(t, w).messages
  {
  }

  lemma ScheduleGrows(schedule: seq<I.Action>, a: I.Action)
    requires I.Exec(schedule).Some? && I.Enabled(I.Exec(schedule).value, a)
    ensures I.Exec(schedule + [a]) == Some(I.Take(I.Exec(schedule).value, a))
    ensures forall m | m in I.Exec(schedule).value.tables.messages :: m in I.Exec(schedule + [a]).value.tables.messages
  {
    var longer := schedule + [a];
    assert longer[..|longer| - 1] == schedule && longer[|longer| - 1] == a;
    I.ActionIsWrite(I.Exec(schedule).value, a);
    RowsStay(I.Exec(schedule).value.tables, I.WriteAt(I.Exec(schedule).value, a));
  }

  lemma MoreRows(log: seq<Entry>, rows: seq<Message>, more: seq<Message>)
    requires LogRepeatsRows(log, rows) && forall m | m in rows :: m in more
    ensures LogRepeatsRows(log, more)
  {
    forall i | 0 <= i < |log| && IsDirectMessage(log[i].msg)
      ensures exists m :: m in more && !m.isGroup && log[i] == MessageEntry(m)
    {
      var m :| m in rows && !m.isGroup && log[i] == MessageEntry(m);
      assert m in more;
    }
  }

  lemma PlainAcked(log: seq<Entry>, e: Entry)
    requires !Sys.IsAck(e)
    ensures Sys.Acked(log + [e]) == Sys.Acked(log)
  {
    assert (log + [e])[..|log + [e]| - 1] == log;
  }

  lemma RowAcked(log: seq<Entry>, m: Message)
    ensures Sys.Acked(log + [MessageEntry(m), AckEntry(m)]) == Sys.Acked(log) + [m.id]
  {
    var longer := log + [MessageEntry(m)];
    var all := log + [MessageEntry(m), AckEntry(m)];
    PlainAcked(log, MessageEntry(m));
    assert all[..|all| - 1] == longer;
  }

  lemma RowAdded(rows: seq<Message>, m: Message)
    ensures Sys.Ids(rows + [m]) == Sys.Ids(rows) + [m.id]
  {
    assert (rows + [m])[..|rows + [m]| - 1] == rows;
  }

  lemma StepKeepsLogs(s: HubState, a: Action, rows: seq<Message>)
    requires Inv(s) && Enabled(s, a) && !a.Frame? && LogRepeatsRows(s.log, rows)
    ensures LogRepeatsRows(Next(s, a).log, rows) && Sys.Acked(Next(s, a).log) == Sys.Acked(s.log)
  {
    var e := Sys.StepLogs(s, a);
    if Next(s, a).log != s.log { PlainAcked(s.log, e); }
  }

  lemma HubEventKeepsInv(w: World, a: Action)
    requires WorldInv(w) && CanHappen(w, HubEvent(a))
    ensures WorldInv(Happen(w, HubEvent(a)))
  {
    NextKeepsInv(w.hub, a);
    StepKeepsLogs(w.hub, a, I.Exec(w.schedule).value.tables.messages);
  }

  /** Routing anything but a stored message logs no direct message and no ack. */
  lemma RouteRefusedLogs(s: HubState, m: WSMessage, rows: seq<Message>)
    requires Inv(s) && s.status == Running && LogRepeatsRows(s.log, rows)
    ensures LogRepeatsRows(Route(s, m, Refused).log, rows)
    ensures Sys.Acked(Route(s, m, Refused).log) == Sys.Acked(s.log)
  {
    if IsDirectMessage(m) {
      Sys.RouteLogs(s, m, Refused);
      var text :| Route(s, m, Refused).log == s.log + [ErrorEntry(m.senderID, text)];
      PlainAcked(s.log, ErrorEntry(m.senderID, text));
    } else {
      Sys.RouteRelays(s, m, Refused);
      var e := Relayed(m, s.rooms);
      if e.Some? {
        DeliverFrame(s, e.value);
        PlainAcked(s.log, e.value);
      }
    }
  }

  lemma RouteStoredLogs(s: HubState, m: WSMessage, row: Message, rows: seq<Message>)
    requires Inv(s) && s.status == Running && LogRepeatsRows(s.log, rows)
    requires IsDirectMessage(m) && ExtractMessageText(m.data).Some? && row in rows && !row.isGroup
    ensures LogRepeatsRows(Route(s, m, Stored(row)).log, rows)
    ensures Sys.Acked(Route(s, m, Stored(row)).log) == Sys.Acked(s.log) + [row.id]
  {
    Sys.RouteLogs(s, m, Stored(row));
    RowAcked(s.log, row);
  }

  lemma AnsweredKeepsInv(w: World)
    requires WorldInv(w) && CanHappen(w, Answered)
    ensures WorldInv(Happen(w, Answered))
  {
    var p := w.waiting.value;
    var rows := I.Exec(w.schedule).value.tables.messages;
    RouteKeepsInv(w.hub, p.msg, if p.outcome.value then Stored(p.row) else Refused);
    if p.outcome.value { RouteStoredLogs(w.hub, p.msg, p.row, rows); } else { RouteRefusedLogs(w.hub, p.msg, rows); }
  }

  lemma BeginSend(s: I.Shared, i: nat, c: Call, row: Message, p: Waiting)
    requires c.Send? && !c.isGroup && row == Message(c.id, c.from, c.to, Text.TrimSpace(c.text), false, c.now)
    requires i !in s.threads && OnlyHubSends(s, None)
    requires p.thread == i && p.row == row && p.outcome == if I.Begin(c).Finished? then Some(false) else None
    ensures var s' := I.Take(s, I.Start(i, c));
      && i in s'.threads && (I.Begin(c).Finished? || WorksFor(s'.threads[i], row))
      && s'.tables == s.tables && OnlyHubSends(s', Some(p))
  {
    var s' := I.Take(s, I.Start(i, c));
    assert forall k | k in s.threads :: s'.threads[k] == s.threads[k];
  }

  /** A direct message with a text: the hub calls the message service and waits. */
  lemma SubmitKeepsInv(w: World, m: WSMessage, id: Uuid, now: int, i: nat)
    requires WorldInv(w) && w.waiting.None? && i !in I.Exec(w.schedule).value.threads
    requires IsDirectMessage(m) && ExtractMessageText(m.data).Some?
    ensures WorldInv(Receive(w, m, id, now, i))
  {
    var text := ExtractMessageText(m.data).value;
    var s, c := I.Exec(w.schedule).value, Send(id, now, m.senderID, m.receiverID, text, false);
    ScheduleGrows(w.schedule, I.Start(i, c));
    MoreRows(w.hub.log, s.tables.messages, I.Exec(w.schedule + [I.Start(i, c)]).value.tables.messages);
    BeginSend(s, i, c, Message(id, m.senderID, m.receiverID, Text.TrimSpace(text), false, now),
              Receive(w, m, id, now, i).waiting.value);
  }

  lemma IncomingKeepsInv(w: World, c: ClientId, msg: WSMessage, id: Uuid, now: int, i: nat)
    requires WorldInv(w) && CanHappen(w, Incoming(c, msg, id, now, i))
    ensures WorldInv(Happen(w, Incoming(c, msg, id, now, i)))
  {
    var m := Stamped(w.hub, c, msg);
    if IsDirectMessage(m) && ExtractMessageText(m.data).Some? {
      SubmitKeepsInv(w, m, id, now, i);
    } else {
      RouteKeepsInv(w.hub, m, Refused);
      RouteRefusedLogs(w.hub, m, I.Exec(w.schedule).value.tables.messages);
    }
  }

  /** A thread that no call of the message service runs does not become one. */
  lemma StepSends(s: I.Shared, i: nat, m: Message)
    requires i in s.threads
    ensures WorksFor(I.Advance(s.tables, s.threads[i]).1, m) ==> WorksFor(s.threads[i], m)
  {
  }

  lemma StillWaits(s: I.Shared, i: nat, p: Waiting)
    requires WaitsFor(s, p) && OnlyHubSends(s, Some(p)) && I.Enabled(s, I.Step(i))
    ensures var s', p' := I.Take(s, I.Step(i)), p.(outcome := Outcome(s, I.Step(i), p));
      WaitsFor(s', p') && OnlyHubSends(s', Some(p'))
  {
    var s' := I.Take(s, I.Step(i));
    I.ActionIsWrite(s, I.Step(i));
    RowsStay(s.tables, I.WriteAt(s, I.Step(i)));
    forall k, m | k in s'.threads && WorksFor(s'.threads[k], m) ensures WorksFor(s.threads[k], m) {
      if k == i { StepSends(s, i, m); } else { assert s'.threads[k] == s.threads[k]; }
    }
  }

  lemma WriteStores(t: Tables, w: Write)
    ensures Execute(t, w).messages == if w.Append? && !HasMessage(t, w.m.id) then t.messages + [w.m] else t.messages
  {
  }

  lemma NoneSends(s: I.Shared, a: I.Action)
    requires OnlyHubSends(s, None) && I.Enabled(s, a) && (a.Start? ==> !a.call.Send?)
    ensures OnlyHubSends(I.Take(s, a), None) && I.Take(s, a).tables.messages == s.tables.messages
  {
    var s', w := I.Take(s, a), I.WriteAt(s, a);
    I.ActionIsWrite(s, a);
    WriteStores(s.tables, w);
    if w.Append? { assert WorksFor(s.threads[a.thread], w.m); }
    forall k, m | k in s'.threads ensures !WorksFor(s'.threads[k], m) {
      if k in s.threads {
        assert !WorksFor(s.threads[k], m);
        StepSends(s, k, m);
      }
    }
  }

  /** A statement adds a row exactly when the hub thereby learns that its row is stored. */
  lemma StepStores(s: I.Shared, i: nat, p: Waiting)
    requires WaitsFor(s, p) && OnlyHubSends(s, Some(p)) && I.Enabled(s, I.Step(i))
    ensures I.Take(s, I.Step(i)).tables.messages ==
      if p.outcome.None? && Outcome(s, I.Step(i), p) == Some(true) then s.tables.messages + [p.row] else s.tables.messages
  {
    var w := I.WriteAt(s, I.Step(i));
    I.ActionIsWrite(s, I.Step(i));
    WriteStores(s.tables, w);
    if w.Append? {
      assert s.threads[i] == I.AtWrite(w) && WorksFor(s.threads[i], w.m);
      assert I.Take(s, I.Step(i)).threads[i] == I.Finished;
    }
  }

  /** What one statement does to the tables, the threads and the waiting hub. */
  ghost predicate Sound(s: I.Shared, log: seq<Entry>, waiting: Option<Waiting>) {
    && (waiting.Some? ==> WaitsFor(s, waiting.value))
    && OnlyHubSends(s, waiting) && AcksMatch(log, s.tables.messages, waiting)
  }

  lemma StatementKeepsSound(s: I.Shared, i: nat, log: seq<Entry>, p: Waiting)
    requires Sound(s, log, Some(p)) && I.Enabled(s, I.Step(i))
    ensures Sound(I.Take(s, I.Step(i)), log, Some(p.(outcome := Outcome(s, I.Step(i), p))))
  {
    StillWaits(s, i, p);
    StepStores(s, i, p);
    RowAdded(s.tables.messages, p.row);
  }

  lemma StatementKeepsInv(w: World, i: nat)
    requires WorldInv(w) && CanHappen(w, Statement(i))
    ensures WorldInv(Happen(w, Statement(i)))
  {
    var s, a := I.Exec(w.schedule).value, I.Step(i);
    ScheduleGrows(w.schedule, a);
    MoreRows(w.hub.log, s.tables.messages, I.Exec(w.schedule + [a]).value.tables.messages);
    if w.waiting.Some? { StatementKeepsSound(s, i, w.hub.log, w.waiting.value); } else { NoneSends(s, a); }
  }

  /** A REST call begins. */
  lemma CallBeginsKeepsSends(s: I.Shared, i: nat, call: Call, waiting: Option<Waiting>)
    requires OnlyHubSends(s, waiting) && I.Enabled(s, I.Start(i, call)) && !call.Send?
    requires waiting.Some? ==> WaitsFor(s, waiting.value)
    ensures var s' := I.Take(s, I.Start(i, call));
      && s'.tables == s.tables && OnlyHubSends(s', waiting) && (waiting.Some? ==> WaitsFor(s', waiting.value))
  {
    var s' := I.Take(s, I.Start(i, call));
    forall k, m | k in s'.threads && WorksFor(s'.threads[k], m) ensures k in s.threads && WorksFor(s.threads[k], m) {
      if k != i { assert s'.threads[k] == s.threads[k]; }
    }
  }

  lemma CallBeginsKeepsInv(w: World, i: nat, call: Call)
    requires WorldInv(w) && CanHappen(w, CallBegins(i, call))
    ensures WorldInv(Happen(w, CallBegins(i, call)))
  {
    ScheduleGrows(w.schedule, I.Start(i, call));
    CallBeginsKeepsSends(I.Exec(w.schedule).value, i, call, w.waiting);
  }

  lemma HappenKeepsInv(w: World, e: Event)
    requires WorldInv(w) && CanHappen(w, e)
    ensures WorldInv(Happen(w, e))
  {
    match e
    case HubEvent(a) => HubEventKeepsInv(w, a);
    case Incoming(c, msg, id, now, i) => IncomingKeepsInv(w, c, msg, id, now, i);
    case CallBegins(i, call) => CallBeginsKeepsInv(w, i, call);
    case Statement(i) => StatementKeepsInv(w, i);
    case Answered => AnsweredKeepsInv(w);
  }

  lemma {:induction false} RunKeepsInv(es: seq<Event>)
    requires Run(es).Some?
    ensures WorldInv(Run(es).value)
  {
    if es == [] {
      assert PresenceInv(NEW_HUB);
    } else {
      RunKeepsInv(es[..|es| - 1]);
      HappenKeepsInv(Run(es[..|es| - 1]).value, es[|es| - 1]);
    }
  }

  /** In every run the stored ids are the acknowledged ones, one for one and in order, then the one still waited for. */
  lemma ConcurrentAcks(es: seq<Event>)
    requires Run(es).Some?
    ensures var w := Run(es).value;
      && I.Exec(w.schedule).Some?
      && Sys.Ids(I.Exec(w.schedule).value.tables.messages) == Sys.Acked(w.hub.log) + Unacked(w.waiting)
  {
    RunKeepsInv(es);
  }

  // ------------------------------------------------------------------- end to end

  /** The row behind a direct message that reached connection c. */
  lemma RowBehind(w: World, c: ClientId, msg: WSMessage) returns (m: Message)
    requires WorldInv(w) && c in w.hub.channels && msg in Stream(w.hub.channels[c]) && IsDirectMessage(msg)
    ensures m in I.Exec(w.schedule).value.tables.messages && !m.isGroup
    ensures MessageEntry(m).msg == msg && m.receiver == w.hub.channels[c].user
  {
    var ch := w.hub.channels[c];
    assert Faithful(w.hub.log, ch);
    Sys.HeardWasLogged(w.hub.log, ch.since, EndOf(w.hub.log, ch), ch.user, msg);
    var i :| 0 <= i < |w.hub.log| && w.hub.log[i].msg == msg && Hears(w.hub.log[i].audience, ch.user);
    m :| m in I.Exec(w.schedule).value.tables.messages && !m.isGroup && w.hub.log[i] == MessageEntry(m);
  }

  /**
   End-to-end safety without atomic calls. However statements, frames, drains and
   the hub's steps interleave, a direct message in any buffer or drained stream
   repeats a stored row of its receiver's; whoever stored the row had found no
   block and, later, friendship; and unless one of the two blocked the other in
   between, the two were unblocked mutual friends when the row was stored.
   */
  lemma ConcurrentEndToEnd(es: seq<Event>, c: ClientId, msg: WSMessage)
    returns (m: Message, thread: nat, i: nat, j: nat, k: nat)
    requires Run(es).Some? && c in Run(es).value.hub.channels
    requires msg in Stream(Run(es).value.hub.channels[c]) && IsDirectMessage(msg)
    ensures msg.senderID == m.sender && msg.receiverID == m.receiver == Run(es).value.hub.channels[c].user
    ensures msg.data == Delivery(m.id, m.body, m.createdAt)
    ensures I.Exec(Run(es).value.schedule).Some?
    ensures m in I.Exec(Run(es).value.schedule).value.tables.messages
    ensures S.StoredBy(Run(es).value.schedule, thread, i, j, k, m)
    ensures var acts := Run(es).value.schedule;
      (forall l | i <= l < k :: !S.BlocksUsersOf(I.WriteOfStep(acts, l), m)) ==> AmongFriends(I.StateAt(acts, k).tables, m)
  {
    RunKeepsInv(es);
    var w := Run(es).value;
    m := RowBehind(w, c, msg);
    thread, i, j, k := S.RowsWereChecked(w.schedule, m);
    if forall l | i <= l < k :: !S.BlocksUsersOf(I.WriteOfStep(w.schedule, l), m) {
      S.SoundWithoutBlock(w.schedule, thread, i, j, k, m);
    }
  }
}
