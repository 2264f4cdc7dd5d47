/** The hub as it runs: an object that updates its table and channels in place, ranging over maps in any order. */
module WebSocketHub {
  import opened Common
  import opened Envelope
  import opened HubInvariants
  import opened HubOrder
  import M = HubModel
  import D = Database
  import Sys = System
  import opened Store

  class Hub {
    var clients: map<UserId, set<M.ClientId>>
    var rooms: map<string, set<UserId>>
    var channels: map<M.ClientId, M.Channel>
    var readers: set<M.ClientId>
    var status: M.Status
    var log: seq<M.Entry>
    const messageService: D.MessageService?
    const db: D.Database // what the message service and the REST handlers write to

    function State(): M.HubState
      reads this
    {
      M.HubState(clients, rooms, channels, readers, status, log)
    }

    /** The hub goroutine is alive and its table is intact. */
    ghost predicate Valid()
      reads this
    {
      status == M.Running && ListedAreOpen(State()) && Wired()
    }

    ghost predicate Wired() {
      messageService != null ==> messageService.db == db
    }

    function Service(): Sys.Service {
      if messageService == null then Sys.Absent
      else if messageService.Guarded() then Sys.Guarded else Sys.Unguarded
    }

    function World(): Sys.World
      reads this, db
    {
      Sys.World(State(), db.Tables(), Service())
    }

    constructor (db: D.Database, service: D.MessageService?)
      requires service != null ==> service.db == db
      ensures State() == M.NEW_HUB && this.db == db && messageService == service && Valid()
    {
      clients, rooms, channels, readers := map[], map[], map[], {};
      status, log := M.Running, [];
      messageService := service;
      this.db := db;
    }

    // -------------------------------------------------------------- one pass

    /** select { case c.send <- msg: default: close(c.send); delete(conns, c) } */
    method OfferToConnection(c: M.ClientId, msg: WSMessage)
      requires M.Listed(State(), c) && channels[c].life == M.Open // neither the send nor the close can panic
      modifies this`clients, this`channels
      ensures State() == OfferOne(old(State()), c, msg)
    {
      var ch := channels[c];
      if |ch.buf| < M.CAPACITY {
        channels := channels[c := ch.(buf := ch.buf + [msg])];
      } else {
        channels := channels[c := ch.(life := M.Closed(|log|, M.Evicted, |ch.written|))];
        clients := clients[ch.user := clients[ch.user] - {c}];
      }
    }

    /** Ranges over the connections of one user; `served` are those of the users before. */
    method OfferToConnections(userID: UserId, msg: WSMessage, ghost start: M.HubState, ghost served: seq<M.ClientId>)
      returns (ghost order: seq<M.ClientId>)
      requires ListedAreOpen(start) && Distinct(served)
      requires forall c | c in served :: M.Listed(start, c) && start.channels[c].user != userID
      requires State() == OfferInOrder(start, served, msg) && userID in clients
      modifies this`clients, this`channels
      ensures State() == OfferInOrder(start, order, msg) && Distinct(order)
      ensures forall c :: c in order <==> c in served || (userID in start.clients && c in start.clients[userID])
    {
      OfferInOrderServes(start, served, msg);
      order := served;
      var conns := clients[userID];
      while conns != {}
        invariant State() == OfferInOrder(start, order, msg) && Distinct(order)
        invariant conns <= start.clients[userID]
        invariant forall c :: c in order <==> c in served || (c in start.clients[userID] && c !in conns)
        decreases conns
      {
        var c :| c in conns;
        OfferNext(start, order, msg, c);
        OfferToConnection(c, msg);
        order := order + [c];
        conns := conns - {c};
      }
    }

    method BroadcastToAll(msg: WSMessage, fromHub: bool)
      requires Valid()
      modifies this`clients, this`channels, this`log
      ensures State() == M.Deliver(old(State()), M.Entry(msg, M.Everyone, fromHub))
    {
      OfferToUsers(clients.Keys, msg);
      NeverSendsOnClosed(old(State()), M.Everyone);
      assert M.Audible(old(State()), M.Everyone) == old(clients.Keys);
      log := log + [M.Entry(msg, M.Everyone, fromHub)];
    }

    method SendToUser(msg: WSMessage, fromHub: bool)
      requires Valid()
      modifies this`clients, this`channels, this`log
      ensures State() == M.Deliver(old(State()), M.Entry(msg, M.User(msg.receiverID), fromHub))
    {
      var target := if msg.receiverID in clients then {msg.receiverID} else {};
      OfferToUsers(target, msg);
      NeverSendsOnClosed(old(State()), M.User(msg.receiverID));
      assert M.Audible(old(State()), M.User(msg.receiverID)) == target;
      log := log + [M.Entry(msg, M.User(msg.receiverID), fromHub)];
    }

    method SendToGroup(msg: WSMessage)
      requires Valid()
      modifies this`clients, this`channels, this`log
      ensures State() ==
        if msg.receiverID in old(rooms)
        then M.Deliver(old(State()), M.Entry(msg, M.Members(old(rooms)[msg.receiverID]), false))
        else old(State())
    {
      if msg.receiverID !in rooms {
        return;
      }
      var members := rooms[msg.receiverID];
      OfferToUsers(members * clients.Keys, msg);
      NeverSendsOnClosed(old(State()), M.Members(members));
      assert M.Audible(old(State()), M.Members(members)) == members * old(clients.Keys);
      log := log + [M.Entry(msg, M.Members(members), false)];
    }

    /** Ranges over users, and over each one's connections, in an order nobody controls. */
    method OfferToUsers(users: set<UserId>, msg: WSMessage)
      requires Valid() && users <= clients.Keys
      modifies this`clients, this`channels
      ensures State() == M.OfferUsers(old(State()), users, msg)
    {
      ghost var start := State();
      ghost var order, done := [], {};
      var todo := users;
      while todo != {}
        invariant done + todo == users && done !! todo
        invariant State() == OfferInOrder(start, order, msg) && Distinct(order)
        invariant forall c :: c in order <==> M.Listed(start, c) && start.channels[c].user in done
        decreases todo
      {
        var userID :| userID in todo;
        OfferInOrderServes(start, order, msg);
        ghost var longer := OfferToConnections(userID, msg, start, order);
        CoversUser(start, done, userID, order, longer);
        order, done := longer, done + {userID};
        todo := todo - {userID};
      }
      OrderIndependent(start, users, order, msg);
    }

    method BroadcastPresence(userID: UserId, online: bool, fromHub: bool)
      requires Valid()
      modifies this`clients, this`channels, this`log
      ensures State() == M.Deliver(old(State()), M.Entry(Presence(userID, online), M.Everyone, fromHub))
    {
      BroadcastToAll(Presence(userID, online), fromHub);
    }

    method SendErrorToUser(userID: UserId, text: string)
      requires Valid()
      modifies this`clients, this`channels, this`log
      ensures State() == M.Deliver(old(State()), M.ErrorEntry(userID, text))
    {
      SendToUser(Failure(userID, text), true);
    }

    method CreateRoom(roomID: string, members: seq<UserId>)
      modifies this`rooms
      ensures State() == old(State()).(rooms := old(rooms)[roomID := set m | m in members])
    {
      var room: set<UserId> := {};
      for i := 0 to |members|
        invariant room == set m | m in members[..i]
      {
        room := room + {members[i]};
      }
      assert members[..|members|] == members;
      rooms := rooms[roomID := room];
    }

    // ------------------------------------------------------- incoming frames

    /** Persist, deliver, acknowledge; or one error to the sender. `id` and `now` go into the stored row. */
    method HandleUserMessage(msg: WSMessage, id: Uuid, now: int) returns (reply: M.Reply)
      requires Valid() && IsDirectMessage(msg)
      modifies this, db
      ensures State() == M.HandleUserMessage(old(State()), msg, reply)
      ensures (db.Tables(), reply) == Sys.Respond(Service(), old(db.Tables()), msg, id, now)
    {
      if messageService == null {
        SendErrorToUser(msg.senderID, "message service unavailable");
        return M.NoService;
      }
      var text := ExtractMessageText(msg.data);
      if text.None? {
        SendErrorToUser(msg.senderID, "message text missing");
        return M.Refused;
      }
      var persisted := messageService.CreateMessage(id, now, msg.senderID, msg.receiverID, text.value, false);
      if persisted.Err? {
        SendErrorToUser(msg.senderID, "message could not be sent");
        return M.Refused;
      }
      DeliverRow(persisted.value);
      return M.Stored(persisted.value);
    }

    /** The stored row goes to its receiver, then the ack to its sender. */
    method DeliverRow(row: Message)
      requires Valid()
      modifies this`clients, this`channels, this`log
      ensures State() == M.Deliver(M.Deliver(old(State()), M.MessageEntry(row)), M.AckEntry(row))
      ensures M.Deliver(old(State()), M.MessageEntry(row)).status == M.Running
    {
      var outbound := WSMessage("message", row.sender, row.receiver, RECEIVER_USER,
                                Delivery(row.id, row.body, row.createdAt));
      DeliverKeepsListed(State(), M.MessageEntry(row));
      DeliverFrame(State(), M.MessageEntry(row));
      SendToUser(outbound, true);
      SendToUser(WSMessage("ack", SYSTEM, row.sender, RECEIVER_USER, Receipt(row.id)), true);
    }

    method RouteMessage(msg: WSMessage, id: Uuid, now: int)
      requires Valid()
      modifies this, db
      ensures var (t, reply) := Sys.Respond(Service(), old(db.Tables()), msg, id, now);
        State() == M.Route(old(State()), msg, reply) && db.Tables() == t
    {
      if msg.event == "user_online" {
        BroadcastPresence(msg.senderID, true, false);
      } else if msg.event == "user_offline" {
        BroadcastPresence(msg.senderID, false, false);
      } else if msg.event == "message" && msg.receiverType == RECEIVER_USER {
        var reply := HandleUserMessage(msg, id, now);
      } else if msg.receiverType == RECEIVER_USER {
        SendToUser(msg, false);
      } else if msg.receiverType == RECEIVER_GROUP {
        SendToGroup(msg);
      }
    }

    // ----------------------------------------------------- the branches of Run

    method OnRegister(c: M.ClientId, userID: UserId)
      requires Valid() && c !in channels
      modifies this
      ensures State() == M.Register(old(State()), c, userID)
    {
      var conns := if userID in clients then clients[userID] else {};
      clients := clients[userID := conns + {c}];
      channels := channels[c := M.Channel(userID, [], [], |log|, M.Open)];
      readers := readers + {c};
      assert State() == Added(old(State()), c, userID);
      BroadcastPresence(userID, true, true);
    }

    method OnUnregister(c: M.ClientId)
      requires Valid() && c in channels
      modifies this
      ensures State() == M.Unregister(old(State()), c)
    {
      ghost var start := State();
      var at := |log|;
      var userID := channels[c].user;
      readers := readers - {c};
      if userID in clients {
        var conns := clients[userID] - {c};
        if conns == {} {
          clients := clients - {userID};
          assert ListedAreOpen(State());
          DeliverFrame(State(), M.Entry(Presence(userID, false), M.Everyone, true));
          BroadcastPresence(userID, false, true);
        } else {
          clients := clients[userID := conns];
        }
      }
      assert State() == M.Remove(start.(readers := start.readers - {c}), c, userID);
      if channels[c].life.Closed? {
        status := M.Panicked(M.CloseOfClosedChannel);
      } else {
        channels := channels[c := channels[c].(life := M.Closed(at, M.Unregistered, |channels[c].written|))];
      }
    }

    method OnIncoming(c: M.ClientId, msg: WSMessage, id: Uuid, now: int)
      requires Valid() && c in channels
      modifies this, db
      ensures World() == old(var m := M.Stamped(State(), c, msg);
        var (t, reply) := Sys.Respond(Service(), db.Tables(), m, id, now);
        Sys.World(M.Route(State(), m, reply), t, Service()))
    {
      RouteMessage(msg.(senderID := channels[c].user), id, now);
    }

    /** The channels listed in `start` have been shut down, except those in `todo`. */
    ghost predicate ClosedExcept(start: M.HubState, at: nat, todo: set<M.ClientId>)
      reads this
    {
      && channels.Keys == start.channels.Keys
      && forall c | c in channels ::
        && (M.Listed(start, c) && c !in todo ==> channels[c] == M.Shut(start.channels[c], at, M.ShutDown))
        && (!M.Listed(start, c) || c in todo ==> channels[c] == start.channels[c])
    }

    method CloseConnections(userID: UserId, at: nat, ghost start: M.HubState, ghost todo: set<M.ClientId>)
      requires ListedAreOpen(start) && ClosedExcept(start, at, todo)
      requires userID in start.clients && userID in clients && clients[userID] == start.clients[userID] <= todo
      modifies this`channels
      ensures ClosedExcept(start, at, todo - start.clients[userID])
    {
      var conns := clients[userID];
      while conns != {}
        invariant conns <= start.clients[userID]
        invariant ClosedExcept(start, at, todo - (start.clients[userID] - conns))
        decreases conns
      {
        var c :| c in conns;
        assert M.Listed(start, c) && channels[c].life == M.Open; // the close cannot panic
        channels := channels[c := channels[c].(life := M.Closed(at, M.ShutDown, |channels[c].written|))];
        conns := conns - {c};
      }
      assert todo - (start.clients[userID] - conns) == todo - start.clients[userID];
    }

    /** Closes every listed channel and empties the table, in any order. */
    method OnQuit()
      requires Valid()
      modifies this
      ensures State() == M.Quit(old(State()))
    {
      ghost var start := State();
      ghost var todo := ListedUnder(start, start.clients.Keys);
      ListedHaveUsers(start);
      var at := |log|;
      while clients.Keys != {}
        invariant clients.Keys <= start.clients.Keys
        invariant forall u | u in clients :: clients[u] == start.clients[u]
        invariant State() == start.(clients := clients, channels := channels)
        invariant todo == ListedUnder(start, clients.Keys)
        invariant ClosedExcept(start, at, todo)
        decreases clients.Keys
      {
        var userID :| userID in clients.Keys;
        UserDone(start, clients.Keys, userID);
        CloseConnections(userID, at, start, todo);
        clients := clients - {userID};
        todo := todo - start.clients[userID];
      }
      status := M.Stopped;
      QuitState(start, State());
    }

    // ----------------------------------------------------------------- the loop

    /** The write pump of a connection takes one message. */
    method Drain(c: M.ClientId)
      requires c in channels && channels[c].buf != []
      modifies this`channels
      ensures State() == old(State()).(channels := old(channels)[c :=
        old(channels)[c].(buf := old(channels)[c].buf[1..], written := old(channels)[c].written + [old(channels)[c].buf[0]])])
    {
      var ch := channels[c];
      channels := channels[c := ch.(buf := ch.buf[1..], written := ch.written + [ch.buf[0]])];
    }

    /** One of the hub's own branches, a write pump, or the room set-up. */
    method Act(a: M.Action)
      requires Inv(State()) && Wired() && !a.Frame? && M.Enabled(State(), a)
      modifies this
      ensures State() == M.Next(old(State()), a)
    {
      match a {
        case Join(c, userID) => OnRegister(c, userID);
        case Leave(c) => OnUnregister(c);
        case Stop => OnQuit();
        case Drain(c) => Drain(c);
        case Room(id, members) => CreateRoom(id, members);
      }
    }

    /** One round of the select statement, or one step of the pumps, the room set-up or a REST handler in between. */
    method Take(e: Sys.Event)
      requires Inv(State()) && Wired() && Sys.CanHappen(World(), e)
      modifies this, db
      ensures World() == Sys.Happen(old(World()), e) && Inv(State())
    {
      StepKeepsInv(World(), e);
      match e {
        case HubEvent(a) => Act(a);
        case Incoming(c, msg, id, now) => OnIncoming(c, msg, id, now);
        case Rest(call) => db.Serve(call);
      }
    }

    /** The select loop, with everything around it interleaved in any possible way, does what the model says step by step. */
    method Run(events: seq<Sys.Event>)
      requires Inv(State()) && Wired()
      requires Sys.RunFrom(World(), events).Some?
      modifies this, db
      ensures World() == Sys.RunFrom(old(World()), events).value
      ensures Inv(State())
    {
      ghost var start := World();
      var i := 0;
      while i < |events|
        invariant 0 <= i <= |events|
        invariant Sys.RunFrom(start, events[..i]) == Some(World())
        invariant Inv(State())
      {
        Sys.PrefixRuns(start, events, i);
        Take(events[i]);
        i := i + 1;
      }
      assert events[..i] == events;
    }
  }

  /** The connections listed for these users. */
  ghost function ListedUnder(s: M.HubState, users: set<UserId>): set<M.ClientId> {
    set c | c in s.channels && M.Listed(s, c) && s.channels[c].user in users
  }

  lemma ListedHaveUsers(s: M.HubState)
    ensures forall c :: c in ListedUnder(s, s.clients.Keys) <==> M.Listed(s, c)
  {
  }

  lemma UserDone(s: M.HubState, users: set<UserId>, u: UserId)
    requires ListedAreOpen(s) && u in users && u in s.clients
    ensures s.clients[u] <= ListedUnder(s, users)
    ensures ListedUnder(s, users) - s.clients[u] == ListedUnder(s, users - {u})
  {
  }

  /** The state in which every listed channel is shut down and the table empty is the one Quit describes. */
  lemma QuitState(start: M.HubState, s: M.HubState)
    requires ListedAreOpen(start)
    requires s == start.(clients := map[], channels := s.channels, status := M.Stopped)
    requires s.channels.Keys == start.channels.Keys
    requires forall c | c in start.channels && M.Listed(start, c) ::
      s.channels[c] == M.Shut(start.channels[c], |start.log|, M.ShutDown)
    requires forall c | c in start.channels && !M.Listed(start, c) :: s.channels[c] == start.channels[c]
    ensures s == M.Quit(start)
  {
    NeverSendsOnClosed(start, M.Everyone);
    assert s.channels == M.Quit(start).channels;
  }

  /** Every event keeps the hub's invariant, whatever the tables hold. */
  lemma StepKeepsInv(w: Sys.World, e: Sys.Event)
    requires Inv(w.hub) && Sys.CanHappen(w, e)
    ensures Inv(Sys.Happen(w, e).hub)
  {
    match e
    case HubEvent(a) => NextKeepsInv(w.hub, a);
    case Incoming(c, msg, id, now) =>
      var m := M.Stamped(w.hub, c, msg);
      RouteKeepsInv(w.hub, m, Sys.Respond(w.service, w.tables, m, id, now).1);
    case Rest(call) =>
  }
}
