/**
 What each connection gets out of each step, message by message: who is owed
 which envelope, spelled out field by field, and how much of it fits.
 */
module HubOutcomes {
  import opened Common
  import opened Envelope
  import opened HubModel
  import opened HubInvariants
  import opened HubRuns
  import opened HubPresence
  import opened Store

  // ------------------------------------------------------------------ what users are owed

  /** The messages that a step addresses to the connections of user u, in order. */
  function Owed(s: HubState, a: Action, u: UserId): seq<WSMessage>
    requires Enabled(s, a)
  {
    match a
    case Join(_, v) => [WSMessage("user_online", v, "", "", NoData)]
    case Leave(c) =>
      var v := s.channels[c].user;
      if v in s.clients && s.clients[v] <= {c} then [WSMessage("user_offline", v, "", "", NoData)] else []
    case Frame(c, msg, reply) => OwedByFrame(s.channels[c].user, msg, reply, s.rooms, u)
    case _ => []
  }

  /** What a frame that user `from` sent is worth to user u. */
  function OwedByFrame(from: UserId, msg: WSMessage, reply: Reply, rooms: map<string, set<UserId>>, u: UserId): seq<WSMessage> {
    var stamped := WSMessage(msg.event, from, msg.receiverID, msg.receiverType, msg.data);
    if msg.event == "user_online" || msg.event == "user_offline" then [WSMessage(msg.event, from, "", "", NoData)]
    else if msg.event == "message" && msg.receiverType == "user" then OwedByMessage(from, msg, reply, u)
    else if msg.receiverType == "user" then (if u == msg.receiverID then [stamped] else [])
    else if msg.receiverType == "group" && msg.receiverID in rooms && u in rooms[msg.receiverID] then [stamped]
    else []
  }

  /** A direct message: the stored row to its receiver and the ack to its sender, or one error to the sender. */
  function OwedByMessage(from: UserId, msg: WSMessage, reply: Reply, u: UserId): seq<WSMessage> {
    if reply.Stored? && ExtractMessageText(msg.data).Some? then
      var row := reply.row;
      (if u == row.receiver
       then [WSMessage("message", row.sender, row.receiver, "user", Delivery(row.id, row.body, row.createdAt))] else [])
      + (if u == row.sender then [WSMessage("ack", "system", row.sender, "user", Receipt(row.id))] else [])
    else if u == from then
      var text := if reply.NoService? then "message service unavailable"
        else if ExtractMessageText(msg.data).None? then "message text missing" else "message could not be sent";
      [WSMessage("error", "system", from, "user", Problem(text))]
    else []
  }

  // ----------------------------------------------------------------------- what fits

  function First(ms: seq<WSMessage>, n: int): seq<WSMessage> {
    if n <= 0 then [] else if n < |ms| then ms[..n] else ms
  }

  /**
   Of what it is owed a listed connection gets, in order, as much as its buffer
   has room for; when that is not all, it is evicted. Any other one gets nothing.
   */
  ghost predicate Gets(s: HubState, s': HubState, d: ClientId, owed: seq<WSMessage>)
    requires d in s.channels
  {
    && d in s'.channels && s'.channels[d].user == s.channels[d].user
    && var ch, ch' := s.channels[d], s'.channels[d];
      var room := CAPACITY - |ch.buf|;
      && Stream(ch') == Stream(ch) + (if Listed(s, d) then First(owed, room) else [])
      && (Listed(s', d) <==> Listed(s, d) && |owed| <= room)
      && (Listed(s', d) ==> |ch'.buf| == |ch.buf| + |owed|)
  }

  lemma GetsNothing(s: HubState, s': HubState, d: ClientId)
    requires d in s.channels && d in s'.channels && s'.channels[d] == s.channels[d] && |s.channels[d].buf| <= CAPACITY
    requires Listed(s', d) <==> Listed(s, d)
    ensures Gets(s, s', d, [])
  {
  }

  lemma FirstOfBoth(ms: seq<WSMessage>, more: seq<WSMessage>, n: int)
    ensures |ms| <= n ==> First(ms + more, n) == ms + First(more, n - |ms|)
    ensures |ms| > n ==> First(ms + more, n) == First(ms, n)
    ensures |ms| <= n ==> First(ms, n) == ms
  {
    if 0 < n < |ms| { assert (ms + more)[..n] == ms[..n]; }
  }

  /** Two passes in a row, the second one on what the first one left. */
  lemma GetsThen(s: HubState, s1: HubState, s2: HubState, d: ClientId, owed: seq<WSMessage>, more: seq<WSMessage>)
    requires d in s.channels && Gets(s, s1, d, owed) && Gets(s1, s2, d, more)
    ensures Gets(s, s2, d, owed + more)
  {
    var room, before := CAPACITY - |s.channels[d].buf|, Stream(s.channels[d]);
    FirstOfBoth(owed, more, room);
    if Listed(s1, d) {
      assert before + owed + First(more, room - |owed|) == before + First(owed + more, room);
    } else {
      assert Stream(s2.channels[d]) == Stream(s1.channels[d]);
    }
  }

  /** One pass. */
  lemma PassGets(s: HubState, e: Entry, d: ClientId)
    requires ListedAreOpen(s) && d in s.channels && |s.channels[d].buf| <= CAPACITY
    ensures Gets(s, Deliver(s, e), d, if Hears(e.audience, s.channels[d].user) then [e.msg] else [])
  {
    var ch := s.channels[d];
    DeliverFrame(s, e);
    DeliverAt(s, e, d);
    if ch.user in s.clients { DeliverAtUser(s, e, ch.user); }
    assert ch.written + (ch.buf + [e.msg]) == Stream(ch) + [e.msg];
  }

  // ------------------------------------------------------------------------ every step

  lemma BufferFits(s: HubState, d: ClientId)
    requires AllFaithful(s, {}) && d in s.channels
    ensures |s.channels[d].buf| <= CAPACITY
  {
    assert Faithful(s.log, s.channels[d]);
  }

  lemma JoinDelivers(s: HubState, c: ClientId, u: UserId, d: ClientId)
    requires Inv(s) && Enabled(s, Join(c, u)) && d in s.channels
    ensures Gets(s, Register(s, c, u), d, Owed(s, Join(c, u), s.channels[d].user))
  {
    var s1 := Added(s, c, u);
    BufferFits(s, d);
    AddedKeepsTable(s, c, u);
    assert s1.channels[d] == s.channels[d];
    GetsNothing(s, s1, d);
    PassGets(s1, Entry(Presence(u, true), Everyone, true), d);
    GetsThen(s, s1, Register(s, c, u), d, [], Owed(s, Join(c, u), s.channels[d].user));
    assert [] + Owed(s, Join(c, u), s.channels[d].user) == Owed(s, Join(c, u), s.channels[d].user);
  }

  /** A new connection is first told that its own user is online. */
  lemma NewcomerGets(s: HubState, c: ClientId, u: UserId)
    requires Inv(s) && Enabled(s, Join(c, u))
    ensures var s' := Register(s, c, u);
      Listed(s', c) && s'.channels[c].user == u && Stream(s'.channels[c]) == [WSMessage("user_online", u, "", "", NoData)]
  {
    AddedKeepsTable(s, c, u);
    PassGets(Added(s, c, u), Entry(Presence(u, true), Everyone, true), c);
  }

  lemma DropGets(s: HubState, c: ClientId, d: ClientId)
    requires Inv(s) && c in s.channels && d in s.channels && d != c
    ensures Gets(s, Dropped(s, c), d, [])
  {
    BufferFits(s, d);
    GetsNothing(s, Dropped(s, c), d);
  }

  lemma RemoveDelivers(s: HubState, c: ClientId, d: ClientId)
    requires Inv(s) && Enabled(s, Leave(c)) && d in s.channels && d != c
    ensures Gets(s, Remove(s.(readers := s.readers - {c}), c, s.channels[c].user), d, Owed(s, Leave(c), s.channels[d].user))
  {
    var v := s.channels[c].user;
    RemoveIs(s, c);
    DropGets(s, c, d);
    if v in s.clients && s.clients[v] - {c} == {} {
      var e := Entry(Presence(v, false), Everyone, true);
      BufferFits(s, d);
      DroppedKeepsTable(s, c);
      PassGets(Dropped(s, c), e, d);
      GetsThen(s, Dropped(s, c), Deliver(Dropped(s, c), e), d, [], [e.msg]);
      assert [] + [e.msg] == [e.msg];
    }
  }

  /** The connection that leaves gets nothing any more, not even the news of its leaving. */
  lemma LeaverGets(s: HubState, c: ClientId)
    requires Inv(s) && Enabled(s, Leave(c))
    ensures var s' := Unregister(s, c);
      c in s'.channels && Stream(s'.channels[c]) == Stream(s.channels[c]) && !Listed(s', c)
  {
    RemoveReachesLeaving(s, c);
  }

  lemma LeaveDelivers(s: HubState, c: ClientId, d: ClientId)
    requires Inv(s) && Enabled(s, Leave(c)) && d in s.channels && d != c
    ensures Gets(s, Unregister(s, c), d, Owed(s, Leave(c), s.channels[d].user))
  {
    RemoveDelivers(s, c, d);
    RemoveReachesLeaving(s, c);
  }

  function HeardOf(e: Option<Entry>, u: UserId): seq<WSMessage> {
    if e.Some? && Hears(e.value.audience, u) then [e.value.msg] else []
  }

  /** What the relayed entry is worth to a user, field by field. */
  lemma RelayOwes(from: UserId, msg: WSMessage, reply: Reply, rooms: map<string, set<UserId>>, u: UserId)
    requires !IsDirectMessage(msg)
    ensures OwedByFrame(from, msg, reply, rooms, u) == HeardOf(Relayed(msg.(senderID := from), rooms), u)
  {
  }

  lemma RelayDelivers(s: HubState, m: WSMessage, reply: Reply, d: ClientId)
    requires ListedAreOpen(s) && d in s.channels && |s.channels[d].buf| <= CAPACITY && !IsDirectMessage(m)
    ensures Gets(s, Route(s, m, reply), d, HeardOf(Relayed(m, s.rooms), s.channels[d].user))
  {
    var e := Relayed(m, s.rooms);
    if e.Some? { PassGets(s, e.value, d); } else { GetsNothing(s, s, d); }
  }

  lemma StoredDelivers(s: HubState, row: Message, d: ClientId)
    requires Inv(s) && s.status == Running && d in s.channels
    ensures var u := s.channels[d].user;
      Gets(s, Deliver(Deliver(s, MessageEntry(row)), AckEntry(row)), d,
           HeardOf(Some(MessageEntry(row)), u) + HeardOf(Some(AckEntry(row)), u))
  {
    var u := s.channels[d].user;
    var s1 := Deliver(s, MessageEntry(row));
    BufferFits(s, d);
    PassGets(s, MessageEntry(row), d);
    DeliverKeepsListed(s, MessageEntry(row));
    DeliverIsFaithful(s, MessageEntry(row), {});
    BufferFits(s1, d);
    PassGets(s1, AckEntry(row), d);
    GetsThen(s, s1, Deliver(s1, AckEntry(row)), d, HeardOf(Some(MessageEntry(row)), u), HeardOf(Some(AckEntry(row)), u));
  }

  lemma RowOwes(from: UserId, msg: WSMessage, row: Message, u: UserId)
    requires ExtractMessageText(msg.data).Some?
    ensures OwedByMessage(from, msg, Stored(row), u) == HeardOf(Some(MessageEntry(row)), u) + HeardOf(Some(AckEntry(row)), u)
  {
  }

  lemma DirectDelivers(s: HubState, msg: WSMessage, reply: Reply, d: ClientId)
    requires Inv(s) && s.status == Running && d in s.channels
    ensures Gets(s, HandleUserMessage(s, msg, reply), d, OwedByMessage(msg.senderID, msg, reply, s.channels[d].user))
  {
    BufferFits(s, d);
    if reply.NoService? {
      PassGets(s, ErrorEntry(msg.senderID, "message service unavailable"), d);
    } else if ExtractMessageText(msg.data).None? {
      PassGets(s, ErrorEntry(msg.senderID, "message text missing"), d);
    } else if reply.Refused? {
      PassGets(s, ErrorEntry(msg.senderID, "message could not be sent"), d);
    } else {
      StoredDelivers(s, reply.row, d);
      RowOwes(msg.senderID, msg, reply.row, s.channels[d].user);
      DeliverFrame(s, MessageEntry(reply.row));
    }
  }

  lemma DirectOwes(s: HubState, c: ClientId, msg: WSMessage, reply: Reply, u: UserId)
    requires c in s.channels && IsDirectMessage(msg)
    ensures var from := s.channels[c].user;
      OwedByFrame(from, msg, reply, s.rooms, u) == OwedByMessage(from, Stamped(s, c, msg), reply, u)
  {
  }

  lemma FrameDelivers(s: HubState, c: ClientId, msg: WSMessage, reply: Reply, d: ClientId)
    requires Inv(s) && Enabled(s, Frame(c, msg, reply)) && d in s.channels
    ensures Gets(s, Route(s, Stamped(s, c, msg), reply), d,
                 OwedByFrame(s.channels[c].user, msg, reply, s.rooms, s.channels[d].user))
  {
    if IsDirectMessage(msg) {
      DirectDelivers(s, Stamped(s, c, msg), reply, d);
      DirectOwes(s, c, msg, reply, s.channels[d].user);
    } else {
      BufferFits(s, d);
      RelayOwes(s.channels[c].user, msg, reply, s.rooms, s.channels[d].user);
      RelayDelivers(s, Stamped(s, c, msg), reply, d);
    }
  }

  /**
   In every step before the hub is stopped, every connection but the one that
   leaves gets exactly what its user is owed, as far as its buffer has room.
   */
  lemma StepDelivers(s: HubState, a: Action, d: ClientId)
    requires Inv(s) && Enabled(s, a) && (a.Join? || a.Leave? || a.Frame?) && d in s.channels && a != Leave(d)
    ensures Gets(s, Next(s, a), d, Owed(s, a, s.channels[d].user))
  {
    match a
    case Join(c, u) => JoinDelivers(s, c, u, d);
    case Leave(c) => LeaveDelivers(s, c, d);
    case Frame(c, msg, reply) => FrameDelivers(s, c, msg, reply, d);
  }

  /** Draining, room set-up and shutdown send nobody anything. */
  lemma OthersSendNothing(s: HubState, a: Action, d: ClientId)
    requires Inv(s) && Enabled(s, a) && (a.Drain? || a.Room? || a.Stop?) && d in s.channels
    ensures d in Next(s, a).channels && Stream(Next(s, a).channels[d]) == Stream(s.channels[d])
  {
    NeverSendsOnClosed(s, Everyone);
    if a == Drain(d) {
      var ch := s.channels[d];
      assert ch.written + [ch.buf[0]] + ch.buf[1..] == Stream(ch);
    }
  }

  // ---------------------------------------------------------- what the hub itself ever says

  /** Heard by the connections of that user and of nobody else. */
  ghost predicate OnlyFor(e: Entry, user: UserId) {
    forall u :: Hears(e.audience, u) <==> u == user
  }

  /** The hub announces presence to everybody, and says everything else to the one user it names as receiver. */
  ghost predicate HubForm(e: Entry) {
    e.fromHub ==>
      || ((e.msg.event == "user_online" || e.msg.event == "user_offline") && forall u :: Hears(e.audience, u))
      || (e.msg.event == "error" && e.msg.senderID == "system" && e.msg.data.Problem? && OnlyFor(e, e.msg.receiverID))
      || (e.msg.event == "ack" && e.msg.senderID == "system" && e.msg.data.Receipt? && OnlyFor(e, e.msg.receiverID))
      || (e.msg.event == "message" && e.msg.data.Delivery? && OnlyFor(e, e.msg.receiverID))
  }

  lemma ErrorForm(user: UserId, text: string)
    ensures HubForm(ErrorEntry(user, text))
  {
    assert OnlyFor(ErrorEntry(user, text), user);
  }

  lemma RowForms(row: Message)
    ensures HubForm(MessageEntry(row)) && HubForm(AckEntry(row))
  {
    assert OnlyFor(MessageEntry(row), row.receiver) && OnlyFor(AckEntry(row), row.sender);
  }

  lemma PresenceForm(user: UserId, online: bool)
    ensures HubForm(Entry(Presence(user, online), Everyone, true))
  {
  }

  ghost predicate AllHubForm(es: seq<Entry>) {
    forall i | 0 <= i < |es| :: HubForm(es[i])
  }

  lemma PassForms(s: HubState, a: Action)
    requires Enabled(s, a)
    ensures AllHubForm(Logged(Passes(s, a)))
  {
    match a
    case Join(c, u) => LoggedShort(Passes(s, a)[0], Passes(s, a)[0]);
    case Leave(c) => if Passes(s, a) != [] { LoggedShort(Passes(s, a)[0], Passes(s, a)[0]); }
    case Frame(c, msg, reply) =>
      var m := Stamped(s, c, msg);
      if IsDirectMessage(m) {
        DirectForms(s, m, reply);
      } else if Passes(s, a) != [] {
        LoggedShort(Passes(s, a)[0], Passes(s, a)[0]);
      }
    case _ =>
  }

  lemma DirectForms(s: HubState, m: WSMessage, reply: Reply)
    ensures AllHubForm(Logged(DirectPasses(s, m, reply)))
  {
    var ps := DirectPasses(s, m, reply);
    LoggedShort(ps[0], ps[|ps| - 1]);
    forall text { ErrorForm(m.senderID, text); }
    if reply.Stored? { RowForms(reply.row); }
  }

  /** In every run, whatever the hub itself routes is for everybody, or for exactly the receiver it names. */
  lemma {:induction false} HubSpeaksTo(acts: seq<Action>)
    requires Exec(acts).Some?
    ensures AllHubForm(Exec(acts).value.log)
  {
    if acts != [] {
      var s := Exec(acts[..|acts| - 1]).value;
      HubSpeaksTo(acts[..|acts| - 1]);
      ReachableInv(acts[..|acts| - 1]);
      PassesAreLogged(s, acts[|acts| - 1]);
      PassForms(s, acts[|acts| - 1]);
    }
  }

  // ------------------------------------------------------------------- closes and rooms

  /** Unregistering closes the connection's open channel, at the log as it was before any announcement. */
  lemma LeaveCloses(s: HubState, c: ClientId)
    requires Inv(s) && Enabled(s, Leave(c)) && s.channels[c].life == Open
    ensures var s' := Unregister(s, c);
      c in s'.channels && s'.channels[c].life == Closed(|s.log|, Unregistered, |s.channels[c].written|) && c !in s'.readers
  {
    RemoveReachesLeaving(s, c);
  }

  /** Quitting closes every open channel and empties the table. */
  lemma StopCloses(s: HubState, c: ClientId)
    requires Inv(s) && Enabled(s, Stop) && c in s.channels && s.channels[c].life == Open
    ensures c in Quit(s).channels && Quit(s).channels[c].life == Closed(|s.log|, ShutDown, |s.channels[c].written|)
    ensures Quit(s).clients == map[] && Quit(s).status == Stopped
  {
    NeverSendsOnClosed(s, Everyone);
    assert Listed(s, c);
  }

  /** The members given when the room was last set up, if it ever was. */
  function LastSetUp(acts: seq<Action>, id: string): Option<seq<UserId>> {
    if acts == [] then None
    else
      var a := acts[|acts| - 1];
      if a.Room? && a.id == id then Some(a.members) else LastSetUp(acts[..|acts| - 1], id)
  }

  lemma OnlyRoomSetsUp(s: HubState, a: Action)
    requires Inv(s) && Enabled(s, a) && !a.Room?
    ensures Next(s, a).rooms == s.rooms
  {
    match a
    case Join(c, u) =>
      AddedKeepsTable(s, c, u);
      DeliverFrame(Added(s, c, u), Entry(Presence(u, true), Everyone, true));
    case Leave(c) =>
      RemoveIs(s, c);
      DroppedKeepsTable(s, c);
      DeliverFrame(Dropped(s, c), Entry(Presence(s.channels[c].user, false), Everyone, true));
    case Frame(c, msg, reply) => RouteKeepsRooms(s, Stamped(s, c, msg), reply);
    case Drain(c) =>
    case Stop =>
  }

  lemma RouteKeepsRooms(s: HubState, m: WSMessage, reply: Reply)
    requires Inv(s) && s.status == Running
    ensures Route(s, m, reply).rooms == s.rooms
  {
    if IsDirectMessage(m) {
      var ps := DirectPasses(s, m, reply);
      DeliverFrame(s, ps[0].entry);
      if |ps| == 2 {
        DeliverKeepsListed(s, ps[0].entry);
        DeliverFrame(ps[1].before, ps[1].entry);
      }
    } else {
      var e := Relayed(m, s.rooms);
      if e.Some? { DeliverFrame(s, e.value); }
    }
  }

  /** In every run a room has exactly the members it was last set up with. */
  lemma {:induction false} RoomsAreAsSetUp(acts: seq<Action>, id: string, u: UserId)
    requires Exec(acts).Some?
    ensures var rooms := Exec(acts).value.rooms;
      && (id in rooms <==> LastSetUp(acts, id).Some?)
      && (id in rooms ==> (u in rooms[id] <==> u in LastSetUp(acts, id).value))
  {
    if acts != [] {
      var a := acts[|acts| - 1];
      RoomsAreAsSetUp(acts[..|acts| - 1], id, u);
      ReachableInv(acts[..|acts| - 1]);
      if !a.Room? { OnlyRoomSetsUp(Exec(acts[..|acts| - 1]).value, a); }
    }
  }
}
