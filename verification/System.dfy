/** The hub and the database together: client frames, hub steps and REST calls in any order. */
module System {
  import opened Common
  import opened Envelope
  import opened HubModel
  import opened HubInvariants
  import opened HubRuns
  import opened HubOutcomes
  import opened Store
  import opened StoreInvariants
  import Text

  /** How the hub is wired: without a message service, with one that lacks a friend or block repository, or fully. */
  datatype Service = Absent | Unguarded | Guarded

  datatype World = World(hub: HubState, tables: Tables, service: Service)

  /** An empty hub and empty tables, however the service is wired. */
  function Begin(service: Service): World {
    World(NEW_HUB, EMPTY, service)
  }

  datatype Event =
    | HubEvent(a: Action)                                    // join, leave, drain, room, stop
    | Incoming(c: ClientId, msg: WSMessage, id: Uuid, now: int) // a frame, with the id and time a stored row would get
    | Rest(call: Call)                                       // friend requests, blocks

  predicate CanHappen(w: World, e: Event) {
    match e
    case HubEvent(a) => !a.Frame? && Enabled(w.hub, a)
    case Incoming(c, msg, _, _) => Enabled(w.hub, Frame(c, msg, Refused))
    case Rest(call) => !call.Send? && !w.hub.status.Panicked?
  }

  /** What becomes of a direct message, and what it does to the tables. */
  function Respond(service: Service, t: Tables, msg: WSMessage, id: Uuid, now: int): (Tables, Reply) {
    match service
    case Absent => (t, NoService)
    case Unguarded => (t, Refused)
    case Guarded => Answer(t, msg, id, now)
  }

  function Happen(w: World, e: Event): World
    requires CanHappen(w, e)
  {
    match e
    case HubEvent(a) => w.(hub := HubModel.Next(w.hub, a))
    case Incoming(c, msg, id, now) =>
      var m := Stamped(w.hub, c, msg);
      var (t, reply) := Respond(w.service, w.tables, m, id, now);
      w.(hub := Route(w.hub, m, reply), tables := t)
    case Rest(call) => w.(tables := Apply(w.tables, call))
  }

  /** The world after a run from w, or None when some event could not happen. */
  function RunFrom(w: World, es: seq<Event>): Option<World> {
    if es == [] then Some(w)
    else
      var v := RunFrom(w, es[..|es| - 1]);
      var e := es[|es| - 1];
      if v.Some? && CanHappen(v.value, e) then Some(Happen(v.value, e)) else None
  }

  /** Every prefix of a run is a run, and its next event can happen. */
  lemma PrefixRuns(w: World, es: seq<Event>, k: nat)
    requires RunFrom(w, es).Some? && k < |es|
    ensures RunFrom(w, es[..k]).Some? && CanHappen(RunFrom(w, es[..k]).value, es[k])
    ensures RunFrom(w, es[..k + 1]) == Some(Happen(RunFrom(w, es[..k]).value, es[k]))
  {
    PrefixHolds((s: seq<Event>) => RunFrom(w, s).Some?, es, k + 1);
    assert es[..k + 1][..k] == es[..k];
  }

  // -------------------------------------------------------------------- invariants

  /** Every direct message ever routed is the hub's own, and repeats a stored row. */
  ghost predicate LogMatchesRows(log: seq<Entry>, rows: seq<Message>) {
    forall i | 0 <= i < |log| && IsDirectMessage(log[i].msg) ::
      log[i].fromHub && exists m :: m in rows && log[i] == MessageEntry(m)
  }

  predicate IsAck(e: Entry) {
    e.fromHub && e.msg.event == "ack"
  }

  /** Each ack comes right after the delivery of the row it acknowledges. */
  ghost predicate AcksFollowMessages(log: seq<Entry>, rows: seq<Message>) {
    forall i | 0 <= i < |log| && IsAck(log[i]) ::
      0 < i && exists m :: m in rows && log[i] == AckEntry(m) && log[i - 1] == MessageEntry(m)
  }

  /** The ids acknowledged so far, in order. */
  function Acked(log: seq<Entry>): seq<Uuid> {
    if log == [] then []
    else
      var e := log[|log| - 1];
      Acked(log[..|log| - 1]) + if IsAck(e) && e.msg.data.Receipt? then [e.msg.data.messageId] else []
  }

  function Ids(rows: seq<Message>): seq<Uuid> {
    if rows == [] then [] else Ids(rows[..|rows| - 1]) + [rows[|rows| - 1].id]
  }

  ghost predicate LogInv(w: World) {
    && LogMatchesRows(w.hub.log, w.tables.messages)
    && AcksFollowMessages(w.hub.log, w.tables.messages)
    && Acked(w.hub.log) == Ids(w.tables.messages)
  }

  ghost predicate WorldInv(w: World) {
    Inv(w.hub) && Consistent(w.tables) && LogInv(w)
  }

  // --------------------------------------------------------------- one outcome per message

  /** What has to hold for a direct message to be stored. */
  predicate Deliverable(w: World, msg: WSMessage, id: Uuid) {
    var text := ExtractMessageText(msg.data);
    && w.service == Guarded
    && text.Some? && Text.TrimSpace(text.value) != []
    && msg.senderID != "" && msg.receiverID != ""
    && AreFriends(w.tables, msg.senderID, msg.receiverID) && !HasMessage(w.tables, id)
  }

  /** The row a deliverable message becomes. */
  function RowOf(msg: WSMessage, id: Uuid, now: int): Message
    requires ExtractMessageText(msg.data).Some?
  {
    Message(id, msg.senderID, msg.receiverID, Text.TrimSpace(ExtractMessageText(msg.data).value), false, now)
  }

  lemma RespondStoresIff(w: World, msg: WSMessage, id: Uuid, now: int)
    requires Consistent(w.tables) && IsDirectMessage(msg)
    ensures var (t, reply) := Respond(w.service, w.tables, msg, id, now);
      if Deliverable(w, msg, id) then
        && t == w.tables.(messages := w.tables.messages + [RowOf(msg, id, now)])
        && reply == Stored(RowOf(msg, id, now))
      else t == w.tables && !reply.Stored?
  {
    var text := ExtractMessageText(msg.data);
    if text.Some? { MessageStoredIff(w.tables, id, now, msg.senderID, msg.receiverID, text.value); }
  }

  lemma RouteLogs(s: HubState, msg: WSMessage, reply: Reply)
    requires Inv(s) && s.status == Running && IsDirectMessage(msg)
    ensures reply.Stored? && ExtractMessageText(msg.data).Some? ==>
      Route(s, msg, reply).log == s.log + [MessageEntry(reply.row), AckEntry(reply.row)]
    ensures !reply.Stored? ==> exists text :: Route(s, msg, reply).log == s.log + [ErrorEntry(msg.senderID, text)]
  {
    if reply.NoService? {
      DeliverFrame(s, ErrorEntry(msg.senderID, "message service unavailable"));
    } else if ExtractMessageText(msg.data).None? {
      DeliverFrame(s, ErrorEntry(msg.senderID, "message text missing"));
    } else if reply.Refused? {
      DeliverFrame(s, ErrorEntry(msg.senderID, "message could not be sent"));
    } else {
      var s1 := Deliver(s, MessageEntry(reply.row));
      DeliverFrame(s, MessageEntry(reply.row));
      DeliverKeepsInv(s, MessageEntry(reply.row));
      DeliverFrame(s1, AckEntry(reply.row));
      assert s.log + [MessageEntry(reply.row)] + [AckEntry(reply.row)]
          == s.log + [MessageEntry(reply.row), AckEntry(reply.row)];
    }
  }

  /**
   Each direct message frame routes exactly one answer of the hub to its sender.
   If a wired service can store it, a row is stored and routed to the receiver first, then
   the ack; otherwise an error is routed and the tables stay as they are.
   */
  lemma OneOutcome(w: World, c: ClientId, msg: WSMessage, id: Uuid, now: int)
    requires WorldInv(w) && CanHappen(w, Incoming(c, msg, id, now)) && IsDirectMessage(msg)
    ensures var w' := Happen(w, Incoming(c, msg, id, now));
      var m := Stamped(w.hub, c, msg);
      if Deliverable(w, m, id) then
        var row := RowOf(m, id, now);
        && w'.tables == w.tables.(messages := w.tables.messages + [row])
        && w'.hub.log == w.hub.log + [MessageEntry(row), AckEntry(row)]
      else
        && w'.tables == w.tables
        && exists text :: w'.hub.log == w.hub.log + [ErrorEntry(m.senderID, text)]
  {
    var m := Stamped(w.hub, c, msg);
    RespondStoresIff(w, m, id, now);
    RouteLogs(w.hub, m, Respond(w.service, w.tables, m, id, now).1);
  }

  /** The one error that a direct message can get, by its cause. */
  function ErrorText(w: World, msg: WSMessage): string {
    if w.service == Absent then "message service unavailable"
    else if ExtractMessageText(msg.data).None? then "message text missing"
    else "message could not be sent"
  }

  /** What a direct message from user `from` puts on the connections of user u, field by field. */
  function Answered(w: World, from: UserId, msg: WSMessage, id: Uuid, now: int, u: UserId): seq<WSMessage> {
    if Deliverable(w, msg.(senderID := from), id) then
      var body := Text.TrimSpace(ExtractMessageText(msg.data).value);
      if u == msg.receiverID then [WSMessage("message", from, msg.receiverID, "user", Delivery(id, body, now))]
      else if u == from then [WSMessage("ack", "system", from, "user", Receipt(id))]
      else []
    else if u == from then [WSMessage("error", "system", from, "user", Problem(ErrorText(w, msg)))]
    else []
  }

  lemma AnsweredIsOwed(w: World, from: UserId, msg: WSMessage, id: Uuid, now: int, u: UserId)
    requires Consistent(w.tables) && IsDirectMessage(msg)
    ensures OwedByMessage(from, msg, Respond(w.service, w.tables, msg.(senderID := from), id, now).1, u)
      == Answered(w, from, msg, id, now, u)
  {
    RespondStoresIff(w, msg.(senderID := from), id, now);
    FriendshipIsMutual(w.tables);
  }

  /**
   One outcome per message, on the wire. The connections of the sender get one
   ack with the row's id, or one error; those of the receiver get the message if
   it was stored; nobody else gets anything.
   */
  lemma FrameAnswered(w: World, c: ClientId, msg: WSMessage, id: Uuid, now: int, d: ClientId)
    requires WorldInv(w) && CanHappen(w, Incoming(c, msg, id, now)) && d in w.hub.channels
    requires msg.event == "message" && msg.receiverType == "user"
    ensures Gets(w.hub, Happen(w, Incoming(c, msg, id, now)).hub, d,
                 Answered(w, w.hub.channels[c].user, msg, id, now, w.hub.channels[d].user))
  {
    var m := Stamped(w.hub, c, msg);
    AnsweredIsOwed(w, w.hub.channels[c].user, msg, id, now, w.hub.channels[d].user);
    FrameDelivers(w.hub, c, msg, Respond(w.service, w.tables, m, id, now).1, d);
  }

  // ---------------------------------------------------------------- keeping the log sound

  /** An entry that is neither a direct message nor an ack adds nothing to check. */
  predicate Plain(e: Entry) {
    !IsDirectMessage(e.msg) && !IsAck(e)
  }

  lemma PlainEntryKeeps(log: seq<Entry>, e: Entry, t: Tables, t': Tables)
    requires LogMatchesRows(log, t.messages) && AcksFollowMessages(log, t.messages)
    requires Acked(log) == Ids(t.messages) && Plain(e) && t'.messages == t.messages
    ensures LogMatchesRows(log + [e], t'.messages) && AcksFollowMessages(log + [e], t'.messages)
    ensures Acked(log + [e]) == Ids(t'.messages)
  {
    assert (log + [e])[..|log + [e]| - 1] == log;
  }

  lemma StoredRowMatches(log: seq<Entry>, rows: seq<Message>, m: Message)
    requires LogMatchesRows(log, rows)
    ensures LogMatchesRows(log + [MessageEntry(m), AckEntry(m)], rows + [m])
  {
    var log' := log + [MessageEntry(m), AckEntry(m)];
    assert m in rows + [m];
    forall i | 0 <= i < |log'| && IsDirectMessage(log'[i].msg)
      ensures log'[i].fromHub && exists r :: r in rows + [m] && log'[i] == MessageEntry(r)
    {
      if i < |log| {
        var r :| r in rows && log[i] == MessageEntry(r);
        assert r in rows + [m];
      }
    }
  }

  lemma StoredRowAcked(log: seq<Entry>, rows: seq<Message>, m: Message)
    requires AcksFollowMessages(log, rows)
    ensures AcksFollowMessages(log + [MessageEntry(m), AckEntry(m)], rows + [m])
  {
    var log' := log + [MessageEntry(m), AckEntry(m)];
    assert m in rows + [m];
    forall i | 0 <= i < |log'| && IsAck(log'[i])
      ensures 0 < i && exists r :: r in rows + [m] && log'[i] == AckEntry(r) && log'[i - 1] == MessageEntry(r)
    {
      if i < |log| {
        var r :| r in rows && log[i] == AckEntry(r) && log[i - 1] == MessageEntry(r);
        assert r in rows + [m];
      }
    }
  }

  lemma StoredRowKeeps(log: seq<Entry>, rows: seq<Message>, m: Message)
    requires LogMatchesRows(log, rows) && AcksFollowMessages(log, rows) && Acked(log) == Ids(rows)
    ensures var log' := log + [MessageEntry(m), AckEntry(m)];
      LogMatchesRows(log', rows + [m]) && AcksFollowMessages(log', rows + [m]) && Acked(log') == Ids(rows + [m])
  {
    StoredRowMatches(log, rows, m);
    StoredRowAcked(log, rows, m);
    var log1 := log + [MessageEntry(m)];
    var log2 := log + [MessageEntry(m), AckEntry(m)];
    assert log1[..|log1| - 1] == log && log2[..|log2| - 1] == log1;
    assert (rows + [m])[..|rows + [m]| - 1] == rows;
  }

  lemma RouteRelays(s: HubState, m: WSMessage, reply: Reply)
    requires !IsDirectMessage(m)
    ensures var e := Relayed(m, s.rooms);
      Route(s, m, reply) == (if e.Some? then Deliver(s, e.value) else s) && (e.Some? ==> Plain(e.value))
  {
  }

  lemma OtherFrame(w: World, c: ClientId, msg: WSMessage, id: Uuid, now: int)
    requires CanHappen(w, Incoming(c, msg, id, now)) && !IsDirectMessage(msg)
    ensures var w' := Happen(w, Incoming(c, msg, id, now));
      var e := Relayed(Stamped(w.hub, c, msg), w.hub.rooms);
      && w'.tables == w.tables && w'.hub == (if e.Some? then Deliver(w.hub, e.value) else w.hub)
      && (e.Some? ==> Plain(e.value))
  {
    var m := Stamped(w.hub, c, msg);
    RouteRelays(w.hub, m, Respond(w.service, w.tables, m, id, now).1);
  }

  lemma OtherFrameKeepsLog(w: World, c: ClientId, msg: WSMessage, id: Uuid, now: int)
    requires WorldInv(w) && CanHappen(w, Incoming(c, msg, id, now)) && !IsDirectMessage(msg)
    ensures LogInv(Happen(w, Incoming(c, msg, id, now)))
  {
    OtherFrame(w, c, msg, id, now);
    var e := Relayed(Stamped(w.hub, c, msg), w.hub.rooms);
    if e.Some? {
      DeliverFrame(w.hub, e.value);
      PlainEntryKeeps(w.hub.log, e.value, w.tables, w.tables);
    }
  }

  lemma DirectFrameKeepsLog(w: World, c: ClientId, msg: WSMessage, id: Uuid, now: int)
    requires WorldInv(w) && CanHappen(w, Incoming(c, msg, id, now)) && IsDirectMessage(msg)
    ensures LogInv(Happen(w, Incoming(c, msg, id, now)))
  {
    var w' := Happen(w, Incoming(c, msg, id, now));
    var m := Stamped(w.hub, c, msg);
    OneOutcome(w, c, msg, id, now);
    if Deliverable(w, m, id) {
      StoredRowKeeps(w.hub.log, w.tables.messages, RowOf(m, id, now));
    } else {
      var text :| w'.hub.log == w.hub.log + [ErrorEntry(m.senderID, text)];
      PlainEntryKeeps(w.hub.log, ErrorEntry(m.senderID, text), w.tables, w'.tables);
    }
  }

  /** A step of the hub that handles no frame logs nothing, or one announcement. */
  lemma StepLogs(s: HubState, a: Action) returns (e: Entry)
    requires Inv(s) && Enabled(s, a) && !a.Frame?
    ensures HubModel.Next(s, a).log == s.log || (Plain(e) && HubModel.Next(s, a).log == s.log + [e])
  {
    e := Entry(Presence("", false), Everyone, true);
    match a
    case Join(c, u) =>
      e := Entry(Presence(u, true), Everyone, true);
      AddedKeepsTable(s, c, u);
      DeliverFrame(Added(s, c, u), e);
    case Leave(c) =>
      e := Entry(Presence(s.channels[c].user, false), Everyone, true);
      RemovalLogs(s, c);
    case _ =>
  }

  lemma HubEventKeepsLog(w: World, a: Action)
    requires WorldInv(w) && CanHappen(w, HubEvent(a))
    ensures LogInv(Happen(w, HubEvent(a)))
  {
    var e := StepLogs(w.hub, a);
    if HubModel.Next(w.hub, a).log != w.hub.log { PlainEntryKeeps(w.hub.log, e, w.tables, w.tables); }
  }

  lemma RespondKeepsConsistency(w: World, msg: WSMessage, id: Uuid, now: int)
    requires Consistent(w.tables)
    ensures Consistent(Respond(w.service, w.tables, msg, id, now).0)
  {
    if IsDirectMessage(msg) {
      RespondStoresIff(w, msg, id, now);
      if Deliverable(w, msg, id) { WriteKeepsConsistencyIff(w.tables, Append(RowOf(msg, id, now))); }
    }
  }

  lemma IncomingKeepsInv(w: World, c: ClientId, msg: WSMessage, id: Uuid, now: int)
    requires WorldInv(w) && CanHappen(w, Incoming(c, msg, id, now))
    ensures WorldInv(Happen(w, Incoming(c, msg, id, now)))
  {
    var m := Stamped(w.hub, c, msg);
    RespondKeepsConsistency(w, m, id, now);
    RouteKeepsInv(w.hub, m, Respond(w.service, w.tables, m, id, now).1);
    if IsDirectMessage(msg) { DirectFrameKeepsLog(w, c, msg, id, now); } else { OtherFrameKeepsLog(w, c, msg, id, now); }
  }

  lemma HappenKeepsInv(w: World, e: Event)
    requires WorldInv(w) && CanHappen(w, e)
    ensures WorldInv(Happen(w, e))
  {
    match e
    case HubEvent(a) =>
      NextKeepsInv(w.hub, a);
      HubEventKeepsLog(w, a);
    case Incoming(c, msg, id, now) => IncomingKeepsInv(w, c, msg, id, now);
    case Rest(call) =>
      ApplyKeepsConsistency(w.tables, call);
      RestKeepsMessages(w.tables, call);
  }

  lemma ApplyKeepsConsistency(t: Tables, call: Call)
    requires Consistent(t)
    ensures Consistent(Apply(t, call))
  {
    CallIsOneWrite(t, call);
    WriteKeepsConsistencyIff(t, WriteOf(t, call));
  }

  lemma RestKeepsMessages(t: Tables, call: Call)
    requires !call.Send?
    ensures Apply(t, call).messages == t.messages
  {
  }

  lemma {:induction false} ReachableWorldInv(service: Service, es: seq<Event>)
    requires RunFrom(Begin(service), es).Some?
    ensures WorldInv(RunFrom(Begin(service), es).value)
  {
    if es == [] {
      assert forall a, b :: !AcceptedBetween(EMPTY, a, b);
      assert PresenceInv(NEW_HUB);
    } else {
      ReachableWorldInv(service, es[..|es| - 1]);
      HappenKeepsInv(RunFrom(Begin(service), es[..|es| - 1]).value, es[|es| - 1]);
    }
  }

  /** Over any run, the ids acknowledged are the ids stored, one for one and in order. */
  lemma AcksAreRows(service: Service, es: seq<Event>)
    requires RunFrom(Begin(service), es).Some?
    ensures var w := RunFrom(Begin(service), es).value;
      Acked(w.hub.log) == Ids(w.tables.messages) && AcksFollowMessages(w.hub.log, w.tables.messages)
  {
    ReachableWorldInv(service, es);
  }

  /** The ack of the row, to its sender, field by field. */
  ghost predicate Acknowledges(e: Entry, row: Message) {
    e.msg == WSMessage("ack", "system", row.sender, "user", Receipt(row.id)) && OnlyFor(e, row.sender)
  }

  /** The row itself, to its receiver, field by field. */
  ghost predicate DeliversRow(e: Entry, row: Message) {
    && e.msg == WSMessage("message", row.sender, row.receiver, "user", Delivery(row.id, row.body, row.createdAt))
    && OnlyFor(e, row.receiver)
  }

  lemma RowEntries(row: Message)
    ensures Acknowledges(AckEntry(row), row) && DeliversRow(MessageEntry(row), row)
  {
  }

  lemma AckOfRow(log: seq<Entry>, rows: seq<Message>, i: nat) returns (row: Message)
    requires AcksFollowMessages(log, rows) && i < |log| && IsAck(log[i])
    ensures row in rows && i > 0 && Acknowledges(log[i], row) && DeliversRow(log[i - 1], row)
  {
    row :| row in rows && log[i] == AckEntry(row) && log[i - 1] == MessageEntry(row);
    RowEntries(row);
  }

  /**
   In every run each ack of the hub names a stored row and is heard by exactly the
   row's sender; right before it comes the row itself, heard by exactly its receiver.
   */
  lemma AcksReachSenders(service: Service, es: seq<Event>, i: nat) returns (row: Message)
    requires RunFrom(Begin(service), es).Some?
    requires var log := RunFrom(Begin(service), es).value.hub.log;
      i < |log| && log[i].fromHub && log[i].msg.event == "ack"
    ensures row in RunFrom(Begin(service), es).value.tables.messages
    ensures var log := RunFrom(Begin(service), es).value.hub.log;
      i > 0 && Acknowledges(log[i], row) && DeliversRow(log[i - 1], row)
  {
    ReachableWorldInv(service, es);
    var w := RunFrom(Begin(service), es).value;
    row := AckOfRow(w.hub.log, w.tables.messages, i);
  }

  // ------------------------------------------------------------------- end to end

  /** Step k of the run stored this row, for two distinct mutual friends with no block either way. */
  ghost predicate StoredAmongFriends(service: Service, es: seq<Event>, k: nat, m: Message)
    requires k < |es|
  {
    && RunFrom(Begin(service), es[..k]).Some? && RunFrom(Begin(service), es[..k + 1]).Some?
    && var t := RunFrom(Begin(service), es[..k]).value.tables;
    && RunFrom(Begin(service), es[..k + 1]).value.tables.messages == t.messages + [m]
    && AmongFriends(t, m)
  }

  /** A step stores at most one row, and only between unblocked mutual friends. */
  lemma StepStores(w: World, e: Event)
    requires WorldInv(w) && CanHappen(w, e)
    ensures var rows := w.tables.messages; var rows' := Happen(w, e).tables.messages;
      rows' == rows || exists m :: rows' == rows + [m] && AmongFriends(w.tables, m)
  {
    if e.Rest? {
      RestKeepsMessages(w.tables, e.call);
    } else if e.Incoming? && !IsDirectMessage(e.msg) {
      OtherFrame(w, e.c, e.msg, e.id, e.now);
    } else if e.Incoming? {
      var m := Stamped(w.hub, e.c, e.msg);
      OneOutcome(w, e.c, e.msg, e.id, e.now);
      if Deliverable(w, m, e.id) {
        FriendshipIsMutual(w.tables);
        assert AmongFriends(w.tables, RowOf(m, e.id, e.now));
      }
    }
  }

  /** The last event of the run is the one that stored m. */
  lemma LastEventStored(service: Service, es: seq<Event>, m: Message)
    requires es != [] && RunFrom(Begin(service), es).Some? && m in RunFrom(Begin(service), es).value.tables.messages
    requires m !in RunFrom(Begin(service), es[..|es| - 1]).value.tables.messages
    ensures StoredAmongFriends(service, es, |es| - 1, m)
  {
    var n := |es| - 1;
    var w := RunFrom(Begin(service), es[..n]).value;
    assert es[..n + 1] == es;
    ReachableWorldInv(service, es[..n]);
    StepStores(w, es[n]);
    var r :| Happen(w, es[n]).tables.messages == w.tables.messages + [r] && AmongFriends(w.tables, r);
    assert m == r;
  }

  lemma {:induction false} RowsStoredAmongFriends(service: Service, es: seq<Event>, m: Message) returns (k: nat)
    requires RunFrom(Begin(service), es).Some? && m in RunFrom(Begin(service), es).value.tables.messages
    ensures k < |es| && StoredAmongFriends(service, es, k, m)
  {
    var front := es[..|es| - 1];
    if m in RunFrom(Begin(service), front).value.tables.messages {
      k := RowsStoredAmongFriends(service, front, m);
      assert front[..k] == es[..k] && front[..k + 1] == es[..k + 1];
    } else {
      k := |es| - 1;
      LastEventStored(service, es, m);
    }
  }

  lemma {:induction false} HeardWasLogged(log: seq<Entry>, lo: nat, hi: nat, u: UserId, m: WSMessage)
    requires lo <= hi <= |log| && m in Heard(log, lo, hi, u)
    ensures exists i :: 0 <= i < |log| && log[i].msg == m && Hears(log[i].audience, u)
    decreases hi
  {
    if lo < hi && m in Heard(log, lo, hi - 1, u) {
      HeardWasLogged(log, lo, hi - 1, u, m);
    }
  }

  /**
   End-to-end safety. In every run, a direct message in any connection's buffer
   or drained stream repeats a stored row, with the row's id, sender, receiver
   and body; and when that row was stored, its two users were distinct mutual
   friends and neither had blocked the other.
   */
  lemma EndToEndSafety(service: Service, es: seq<Event>, c: ClientId, msg: WSMessage) returns (k: nat, m: Message)
    requires RunFrom(Begin(service), es).Some?
    requires c in RunFrom(Begin(service), es).value.hub.channels
    requires msg in Stream(RunFrom(Begin(service), es).value.hub.channels[c]) && IsDirectMessage(msg)
    ensures m in RunFrom(Begin(service), es).value.tables.messages
    ensures msg.senderID == m.sender
    ensures msg.receiverID == m.receiver == RunFrom(Begin(service), es).value.hub.channels[c].user
    ensures msg.data == Delivery(m.id, m.body, m.createdAt)
    ensures k < |es| && StoredAmongFriends(service, es, k, m)
  {
    var w := RunFrom(Begin(service), es).value;
    var ch := w.hub.channels[c];
    ReachableWorldInv(service, es);
    assert Faithful(w.hub.log, ch);
    HeardWasLogged(w.hub.log, ch.since, EndOf(w.hub.log, ch), ch.user, msg);
    var i :| 0 <= i < |w.hub.log| && w.hub.log[i].msg == msg && Hears(w.hub.log[i].audience, ch.user);
    m :| m in w.tables.messages && w.hub.log[i] == MessageEntry(m);
    k := RowsStoredAmongFriends(service, es, m);
  }
}
