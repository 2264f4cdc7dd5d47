/**
 The WebSocket hub as a state machine: the table user -> connections, one send
 channel per connection, the rooms, and the log of everything the hub routed.
 */
module HubModel {
  import opened Common
  import opened Envelope
  import opened Store

  type ClientId = nat

  const CAPACITY := 256

  datatype Removal = Evicted | Unregistered | ShutDown

  /**
   A Go channel is open or closed. `at` is the length of the log when it was closed,
   `drained` how many messages the write pump had taken off by then.
   */
  datatype Life = Open | Closed(at: nat, why: Removal, drained: nat)

  /** `written` is what the write pump has taken off; `since` is the length of the log at registration. */
  datatype Channel = Channel(
    user: UserId, buf: seq<WSMessage>, written: seq<WSMessage>, since: nat, life: Life)

  datatype Audience = Everyone | User(user: UserId) | Members(users: set<UserId>)

  /** One routed message. `fromHub` tells the hub's own messages from relayed client frames. */
  datatype Entry = Entry(msg: WSMessage, audience: Audience, fromHub: bool)

  datatype Panic = SendOnClosedChannel | CloseOfClosedChannel

  datatype Status = Running | Stopped | Panicked(cause: Panic)

  /** `readers` are the connections whose read pump has not yet handed in its unregister. */
  datatype HubState = HubState(
    clients: map<UserId, set<ClientId>>,
    rooms: map<string, set<UserId>>,
    channels: map<ClientId, Channel>,
    readers: set<ClientId>,
    status: Status,
    log: seq<Entry>)

  const NEW_HUB := HubState(map[], map[], map[], {}, Running, [])

  predicate Hears(a: Audience, u: UserId) {
    match a
    case Everyone => true
    case User(v) => u == v
    case Members(us) => u in us
  }

  /** The connection is listed in the table, under its own user. */
  predicate Listed(s: HubState, c: ClientId) {
    c in s.channels && s.channels[c].user in s.clients && c in s.clients[s.channels[c].user]
  }

  predicate HasRoom(s: HubState, c: ClientId) {
    c in s.channels && |s.channels[c].buf| < CAPACITY
  }

  function Shut(ch: Channel, at: nat, why: Removal): Channel {
    ch.(life := Closed(at, why, |ch.written|))
  }

  /** select { case c.send <- msg: default: close(c.send) } on an open channel. */
  function Offer(ch: Channel, msg: WSMessage, at: nat): Channel {
    if |ch.buf| < CAPACITY then ch.(buf := ch.buf + [msg]) else Shut(ch, at, Evicted)
  }

  /** Offers a message to every listed connection of the users in `us`, evicting those with a full buffer. */
  function OfferUsers(s: HubState, us: set<UserId>, msg: WSMessage): (r: HubState)
    ensures r.channels.Keys == s.channels.Keys
  {
    s.(clients := map u | u in s.clients ::
         if u in us then (set c | c in s.clients[u] && HasRoom(s, c)) else s.clients[u],
       channels := map c | c in s.channels ::
         if s.channels[c].user in us && Listed(s, c) then Offer(s.channels[c], msg, |s.log|) else s.channels[c])
  }

  function Audible(s: HubState, a: Audience): set<UserId> {
    set u | u in s.clients && Hears(a, u)
  }

  predicate SendsOnClosed(s: HubState, a: Audience) {
    exists c :: c in s.channels && Hears(a, s.channels[c].user) && Listed(s, c) && s.channels[c].life.Closed?
  }

  /** One pass over the table: broadcast, direct send, or group send, according to the audience. */
  function Deliver(s: HubState, e: Entry): (r: HubState)
    ensures r.channels.Keys == s.channels.Keys
  {
    if SendsOnClosed(s, e.audience) then s.(status := Panicked(SendOnClosedChannel))
    else OfferUsers(s, Audible(s, e.audience), e.msg).(log := s.log + [e])
  }

  function CloseChannel(s: HubState, c: ClientId, at: nat, why: Removal): HubState
    requires c in s.channels
  {
    if s.channels[c].life.Closed? then s.(status := Panicked(CloseOfClosedChannel))
    else s.(channels := s.channels[c := Shut(s.channels[c], at, why)])
  }

  // ------------------------------------------------------- the four branches of Run

  function Register(s: HubState, c: ClientId, u: UserId): HubState {
    var conns := if u in s.clients then s.clients[u] else {};
    var s1 := s.(clients := s.clients[u := conns + {c}],
                 channels := s.channels[c := Channel(u, [], [], |s.log|, Open)],
                 readers := s.readers + {c});
    Deliver(s1, Entry(Presence(u, true), Everyone, true))
  }

  /** The table part of the unregister branch: drop the connection, then the entry when it is empty. */
  function Remove(s: HubState, c: ClientId, u: UserId): (r: HubState)
    ensures r.channels.Keys == s.channels.Keys
  {
    if u !in s.clients then s
    else
      var conns := s.clients[u] - {c};
      if conns == {} then
        Deliver(s.(clients := s.clients - {u}), Entry(Presence(u, false), Everyone, true))
      else s.(clients := s.clients[u := conns])
  }

  function Unregister(s: HubState, c: ClientId): HubState
    requires c in s.channels
  {
    var s1 := Remove(s.(readers := s.readers - {c}), c, s.channels[c].user);
    if s1.status != Running then s1
    else CloseChannel(s1, c, |s.log|, Unregistered)
  }

  function Quit(s: HubState): HubState {
    if SendsOnClosed(s, Everyone) then s.(status := Panicked(CloseOfClosedChannel))
    else
      s.(channels := map c | c in s.channels ::
           if Listed(s, c) then Shut(s.channels[c], |s.log|, ShutDown) else s.channels[c],
         clients := map[],
         status := Stopped)
  }

  /** What the message service answered: no service is wired in, it refused, or it stored a row. */
  datatype Reply = NoService | Refused | Stored(row: Message)

  /** The message service's answer to a direct message, and what it does to the tables. */
  function Answer(t: Tables, msg: WSMessage, id: Uuid, now: int): (Tables, Reply) {
    var text := ExtractMessageText(msg.data);
    if !IsDirectMessage(msg) || text.None? then (t, Refused)
    else
      var (t', r) := CreateMessage(t, id, now, msg.senderID, msg.receiverID, text.value, false);
      (t', if r.Ok? then Stored(r.value) else Refused)
  }

  function ErrorEntry(user: UserId, text: string): Entry {
    Entry(Failure(user, text), User(user), true)
  }

  function MessageEntry(m: Message): Entry {
    Entry(WSMessage("message", m.sender, m.receiver, RECEIVER_USER, Delivery(m.id, m.body, m.createdAt)),
          User(m.receiver), true)
  }

  function AckEntry(m: Message): Entry {
    Entry(WSMessage("ack", SYSTEM, m.sender, RECEIVER_USER, Receipt(m.id)), User(m.sender), true)
  }

  function HandleUserMessage(s: HubState, msg: WSMessage, reply: Reply): (r: HubState)
    ensures r.channels.Keys == s.channels.Keys
  {
    if reply.NoService? then Deliver(s, ErrorEntry(msg.senderID, "message service unavailable"))
    else if ExtractMessageText(msg.data).None? then Deliver(s, ErrorEntry(msg.senderID, "message text missing"))
    else if reply.Refused? then Deliver(s, ErrorEntry(msg.senderID, "message could not be sent"))
    else
      var s1 := Deliver(s, MessageEntry(reply.row));
      if s1.status != Running then s1 else Deliver(s1, AckEntry(reply.row))
  }

  function Route(s: HubState, msg: WSMessage, reply: Reply): (r: HubState)
    ensures r.channels.Keys == s.channels.Keys
  {
    if msg.event == "user_online" then Deliver(s, Entry(Presence(msg.senderID, true), Everyone, false))
    else if msg.event == "user_offline" then Deliver(s, Entry(Presence(msg.senderID, false), Everyone, false))
    else if IsDirectMessage(msg) then HandleUserMessage(s, msg, reply)
    else if msg.receiverType == RECEIVER_USER then Deliver(s, Entry(msg, User(msg.receiverID), false))
    else if msg.receiverType == RECEIVER_GROUP && msg.receiverID in s.rooms then
      Deliver(s, Entry(msg, Members(s.rooms[msg.receiverID]), false))
    else s
  }

  /** The entry that a frame other than a direct message is relayed as, if it is routed at all. */
  function Relayed(m: WSMessage, rooms: map<string, set<UserId>>): Option<Entry> {
    if m.event == "user_online" then Some(Entry(Presence(m.senderID, true), Everyone, false))
    else if m.event == "user_offline" then Some(Entry(Presence(m.senderID, false), Everyone, false))
    else if m.receiverType == RECEIVER_USER then Some(Entry(m, User(m.receiverID), false))
    else if m.receiverType == RECEIVER_GROUP && m.receiverID in rooms then
      Some(Entry(m, Members(rooms[m.receiverID]), false))
    else None
  }

  // ------------------------------------------------------------------- actions

  /** The hub's own steps and the steps of its environment. */
  datatype Action =
    | Join(c: ClientId, user: UserId)                  // Register hands a new connection to the hub
    | Leave(c: ClientId)                               // the read pump exits
    | Frame(c: ClientId, msg: WSMessage, reply: Reply) // the read pump forwards a frame
    | Drain(c: ClientId)                               // the write pump takes one message
    | Room(id: string, members: seq<UserId>)           // CreateRoom
    | Stop

  /** A panic kills the process; after Stop the hub takes nothing any more, but the pumps still drain. */
  predicate Enabled(s: HubState, a: Action) {
    match a
    case Join(c, u) => s.status == Running && c !in s.channels && u != ""
    case Leave(c) => s.status == Running && c in s.readers && c in s.channels
    case Frame(c, _, _) => s.status == Running && c in s.readers && c in s.channels
    case Drain(c) => !s.status.Panicked? && c in s.channels && s.channels[c].buf != []
    case Room(_, _) => s.status == Running
    case Stop => s.status == Running
  }

  /** The read pump overwrites the sender with the connection's user. */
  function Stamped(s: HubState, c: ClientId, msg: WSMessage): WSMessage
    requires c in s.channels
  {
    msg.(senderID := s.channels[c].user)
  }

  function Next(s: HubState, a: Action): HubState
    requires Enabled(s, a)
  {
    match a
    case Join(c, u) => Register(s, c, u)
    case Leave(c) => Unregister(s, c)
    case Frame(c, msg, reply) => Route(s, Stamped(s, c, msg), reply)
    case Drain(c) =>
      var ch := s.channels[c];
      s.(channels := s.channels[c := ch.(buf := ch.buf[1..], written := ch.written + [ch.buf[0]])])
    case Room(id, members) => s.(rooms := s.rooms[id := set m | m in members])
    case Stop => Quit(s)
  }

  /** The state after a run, or None when some action of it was not enabled. */
  function Exec(acts: seq<Action>): Option<HubState> {
    if acts == [] then Some(NEW_HUB)
    else
      var s := Exec(acts[..|acts| - 1]);
      var a := acts[|acts| - 1];
      if s.Some? && Enabled(s.value, a) then Some(Next(s.value, a)) else None
  }

  // --------------------------------------------------------------- the log, read back

  /** What a connection of user u should have been sent by log entries lo..hi. */
  function Heard(log: seq<Entry>, lo: nat, hi: nat, u: UserId): seq<WSMessage>
    requires lo <= hi <= |log|
    decreases hi
  {
    if lo == hi then []
    else Heard(log, lo, hi - 1, u) + if Hears(log[hi - 1].audience, u) then [log[hi - 1].msg] else []
  }

  function EndOf(log: seq<Entry>, ch: Channel): nat {
    if ch.life.Closed? then ch.life.at else |log|
  }

  /** Everything that went into the channel, in order. */
  function Stream(ch: Channel): seq<WSMessage> {
    ch.written + ch.buf
  }

  /** The last presence the hub itself announced for u, if any: online or offline. */
  function LastPresence(log: seq<Entry>, u: UserId): Option<bool> {
    if log == [] then None
    else
      var e := log[|log| - 1];
      if e.fromHub && e.msg == Presence(u, true) then Some(true)
      else if e.fromHub && e.msg == Presence(u, false) then Some(false)
      else LastPresence(log[..|log| - 1], u)
  }
}
