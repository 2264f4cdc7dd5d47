/** What every step of the hub keeps: the table, the channels, the streams, and the presence log. */
module HubInvariants {
  import opened Common
  import opened Envelope
  import opened HubModel

  // ------------------------------------------------------------------ invariants

  /** Only open channels are listed, each under its own user, and their read pumps are still running. */
  ghost predicate ListedAreOpen(s: HubState) {
    forall u, c | u in s.clients && c in s.clients[u] ::
      c in s.channels && s.channels[c].user == u && s.channels[c].life == Open && c in s.readers
  }

  /** Every open channel is listed, except those whose unregister is under way. */
  ghost predicate OpenAreListed(s: HubState, leaving: set<ClientId>) {
    forall c | c in s.channels && c !in leaving :: s.channels[c].life == Open ==> Listed(s, c)
  }

  predicate IsEvicted(ch: Channel) {
    ch.life.Closed? && ch.life.why == Evicted
  }

  /** Until the hub is stopped, a closed channel whose read pump is still running was evicted. */
  ghost predicate ReadersOpenOrEvicted(s: HubState) {
    && s.readers <= s.channels.Keys
    && (s.status != Stopped ==>
        forall c | c in s.readers && c in s.channels :: s.channels[c].life.Closed? ==> IsEvicted(s.channels[c]))
  }

  ghost predicate TableInv(s: HubState, leaving: set<ClientId>) {
    ListedAreOpen(s) && OpenAreListed(s, leaving) && ReadersOpenOrEvicted(s)
  }

  /**
   Delivery: a channel holds, in order, exactly the log entries addressed to its
   user while it was registered. An evicted one ends at the first entry addressed
   to it that it missed, when exactly a full buffer of others was waiting.
   */
  ghost predicate Faithful(log: seq<Entry>, ch: Channel) {
    && ch.since <= EndOf(log, ch) <= |log|
    && |ch.buf| <= CAPACITY
    && Stream(ch) == Heard(log, ch.since, EndOf(log, ch), ch.user)
    && (IsEvicted(ch) ==>
        && ch.life.at < |log| && Hears(log[ch.life.at].audience, ch.user)
        && ch.life.drained <= |ch.written| && |Stream(ch)| == ch.life.drained + CAPACITY)
  }

  ghost predicate AllFaithful(s: HubState, leaving: set<ClientId>) {
    forall c | c in s.channels && c !in leaving :: Faithful(s.log, s.channels[c])
  }

  /** A user has a table entry exactly when the hub's last announcement about them was user_online. */
  ghost predicate PresenceInv(s: HubState) {
    forall u :: u in s.clients <==> LastPresence(s.log, u) == Some(true)
  }

  /** A read pump of the user has not yet handed in its unregister. */
  ghost predicate HasReader(s: HubState, u: UserId) {
    exists c :: c in s.readers && c in s.channels && s.channels[c].user == u
  }

  /** Even an entry that evictions have emptied belongs to a connection whose read pump still runs. */
  ghost predicate EntriesHaveReaders(s: HubState) {
    forall u | u in s.clients :: HasReader(s, u)
  }

  ghost predicate Inv(s: HubState) {
    && TableInv(s, {})
    && AllFaithful(s, {})
    && s.status != Panicked(SendOnClosedChannel)
    && (s.status != Stopped ==> PresenceInv(s))
    && EntriesHaveReaders(s)
    && (s.status == Stopped ==> s.clients == map[])
  }

  // ----------------------------------------------------------------- reading the log

  lemma {:induction false} HeardPrefix(log: seq<Entry>, e: Entry, lo: nat, hi: nat, u: UserId)
    requires lo <= hi <= |log|
    ensures Heard(log + [e], lo, hi, u) == Heard(log, lo, hi, u)
    decreases hi
  {
    if lo < hi {
      HeardPrefix(log, e, lo, hi - 1, u);
    }
  }

  lemma LastPresenceExtends(log: seq<Entry>, e: Entry, u: UserId)
    ensures LastPresence(log + [e], u) ==
      if e.fromHub && e.msg == Presence(u, true) then Some(true)
      else if e.fromHub && e.msg == Presence(u, false) then Some(false)
      else LastPresence(log, u)
  {
    assert (log + [e])[..|log + [e]| - 1] == log;
  }

  predicate Announces(e: Entry) {
    e.fromHub && (e.msg.event == "user_online" || e.msg.event == "user_offline")
  }

  // --------------------------------------------------------------------- one pass

  /** A pass over an intact table never meets a closed channel. */
  lemma NeverSendsOnClosed(s: HubState, a: Audience)
    requires ListedAreOpen(s)
    ensures !SendsOnClosed(s, a)
  {
  }

  /** What a pass does to one channel. */
  lemma DeliverAt(s: HubState, e: Entry, c: ClientId)
    requires ListedAreOpen(s) && c in s.channels
    ensures Deliver(s, e).channels[c] ==
      if Listed(s, c) && Hears(e.audience, s.channels[c].user) then Offer(s.channels[c], e.msg, |s.log|)
      else s.channels[c]
  {
    NeverSendsOnClosed(s, e.audience);
  }

  /** What a pass does to one table entry. */
  lemma DeliverAtUser(s: HubState, e: Entry, u: UserId)
    requires ListedAreOpen(s) && u in s.clients
    ensures u in Deliver(s, e).clients
    ensures Deliver(s, e).clients[u] ==
      if Hears(e.audience, u) then (set c | c in s.clients[u] && HasRoom(s, c)) else s.clients[u]
  {
    NeverSendsOnClosed(s, e.audience);
  }

  lemma DeliverFrame(s: HubState, e: Entry)
    requires ListedAreOpen(s)
    ensures var s' := Deliver(s, e);
      && s'.status == s.status && s'.log == s.log + [e] && s'.readers == s.readers && s'.rooms == s.rooms
      && s'.channels.Keys == s.channels.Keys && s'.clients.Keys == s.clients.Keys
  {
    NeverSendsOnClosed(s, e.audience);
  }

  lemma DeliverKeepsListed(s: HubState, e: Entry)
    requires ListedAreOpen(s)
    ensures ListedAreOpen(Deliver(s, e))
  {
    var s' := Deliver(s, e);
    DeliverFrame(s, e);
    forall u, c | u in s'.clients && c in s'.clients[u]
      ensures c in s'.channels && s'.channels[c].user == u && s'.channels[c].life == Open && c in s'.readers
    {
      DeliverAtUser(s, e, u);
      DeliverAt(s, e, c);
    }
  }

  lemma DeliverKeepsTable(s: HubState, e: Entry, leaving: set<ClientId>)
    requires TableInv(s, leaving) && s.status == Running
    ensures TableInv(Deliver(s, e), leaving)
  {
    var s' := Deliver(s, e);
    DeliverFrame(s, e);
    DeliverKeepsListed(s, e);
    forall c | c in s'.channels
      ensures c !in leaving && s'.channels[c].life == Open ==> Listed(s', c)
    {
      DeliverAt(s, e, c);
      if Listed(s, c) { DeliverAtUser(s, e, s.channels[c].user); }
    }
    forall c | c in s'.readers && c in s'.channels && s'.channels[c].life.Closed?
      ensures IsEvicted(s'.channels[c])
    {
      DeliverAt(s, e, c);
    }
  }

  /** A new log entry, and the offer of it to an open channel that hears it. */
  lemma OfferIsFaithful(log: seq<Entry>, e: Entry, ch: Channel)
    requires Faithful(log, ch)
    ensures ch.life == Open && Hears(e.audience, ch.user) ==> Faithful(log + [e], Offer(ch, e.msg, |log|))
    ensures ch.life.Closed? || !Hears(e.audience, ch.user) ==> Faithful(log + [e], ch)
  {
    HeardPrefix(log, e, ch.since, EndOf(log, ch), ch.user);
    assert ch.written + (ch.buf + [e.msg]) == Stream(ch) + [e.msg];
  }

  lemma DeliverIsFaithful(s: HubState, e: Entry, leaving: set<ClientId>)
    requires TableInv(s, leaving) && AllFaithful(s, leaving)
    ensures AllFaithful(Deliver(s, e), leaving)
  {
    DeliverFrame(s, e);
    forall c | c in s.channels && c !in leaving
      ensures Faithful(s.log + [e], Deliver(s, e).channels[c])
    {
      OfferIsFaithful(s.log, e, s.channels[c]);
      DeliverAt(s, e, c);
    }
  }

  /** A pass that announces nothing leaves presence alone. */
  lemma DeliverKeepsPresence(s: HubState, e: Entry)
    requires ListedAreOpen(s) && PresenceInv(s) && !Announces(e)
    ensures PresenceInv(Deliver(s, e))
  {
    DeliverFrame(s, e);
    forall u { LastPresenceExtends(s.log, e, u); }
  }

  lemma DeliverKeepsReaders(s: HubState, e: Entry)
    requires ListedAreOpen(s) && EntriesHaveReaders(s)
    ensures EntriesHaveReaders(Deliver(s, e))
  {
    DeliverFrame(s, e);
    forall u | u in s.clients ensures HasReader(Deliver(s, e), u) {
      var c :| c in s.readers && c in s.channels && s.channels[c].user == u;
      DeliverAt(s, e, c);
      assert Deliver(s, e).channels[c].user == u;
    }
  }

  /** Any routed message that is not an announcement keeps everything. */
  lemma DeliverKeepsInv(s: HubState, e: Entry)
    requires Inv(s) && s.status == Running && !Announces(e)
    ensures Inv(Deliver(s, e)) && Deliver(s, e).status == Running
  {
    DeliverFrame(s, e);
    DeliverKeepsTable(s, e, {});
    DeliverIsFaithful(s, e, {});
    DeliverKeepsPresence(s, e);
    DeliverKeepsReaders(s, e);
  }

  // ---------------------------------------------------------------------- register

  /** The table with a new, empty connection, before the announcement. */
  function Added(s: HubState, c: ClientId, u: UserId): HubState {
    var conns := if u in s.clients then s.clients[u] else {};
    s.(clients := s.clients[u := conns + {c}],
       channels := s.channels[c := Channel(u, [], [], |s.log|, Open)],
       readers := s.readers + {c})
  }

  lemma AddedKeepsTable(s: HubState, c: ClientId, u: UserId)
    requires TableInv(s, {}) && c !in s.channels
    ensures TableInv(Added(s, c, u), {})
  {
    var s1 := Added(s, c, u);
    forall d | d in s1.channels ensures s1.channels[d].life == Open ==> Listed(s1, d) {
      if d != c { assert s1.channels[d] == s.channels[d]; }
    }
  }

  lemma AddedIsFaithful(s: HubState, c: ClientId, u: UserId)
    requires AllFaithful(s, {}) && c !in s.channels
    ensures AllFaithful(Added(s, c, u), {})
  {
    var s1 := Added(s, c, u);
    forall d | d in s1.channels ensures Faithful(s1.log, s1.channels[d]) {
      if d != c { assert s1.channels[d] == s.channels[d]; }
    }
  }

  lemma AddedKeepsReaders(s: HubState, c: ClientId, u: UserId)
    requires EntriesHaveReaders(s) && c !in s.channels
    ensures EntriesHaveReaders(Added(s, c, u))
  {
    var s1 := Added(s, c, u);
    assert c in s1.readers && s1.channels[c].user == u;
    forall v | v in s.clients ensures HasReader(s1, v) {
      var d :| d in s.readers && d in s.channels && s.channels[d].user == v;
      assert s1.channels[d] == s.channels[d];
    }
  }

  lemma JoinKeepsInv(s: HubState, c: ClientId, u: UserId)
    requires Inv(s) && Enabled(s, Join(c, u))
    ensures Inv(Register(s, c, u)) && Register(s, c, u).status == Running
  {
    var s1 := Added(s, c, u);
    var e := Entry(Presence(u, true), Everyone, true);
    AddedKeepsTable(s, c, u);
    AddedIsFaithful(s, c, u);
    AddedKeepsReaders(s, c, u);
    DeliverFrame(s1, e);
    DeliverKeepsTable(s1, e, {});
    DeliverIsFaithful(s1, e, {});
    DeliverKeepsReaders(s1, e);
    forall v { LastPresenceExtends(s1.log, e, v); }
  }

  // -------------------------------------------------------------------- unregister

  /** The table without the connection, before any announcement and before the close. */
  function Dropped(s: HubState, c: ClientId): HubState
    requires c in s.channels
  {
    var u := s.channels[c].user;
    s.(readers := s.readers - {c},
       clients := if u !in s.clients then s.clients
         else if s.clients[u] - {c} == {} then s.clients - {u}
         else s.clients[u := s.clients[u] - {c}])
  }

  lemma DroppedKeepsTable(s: HubState, c: ClientId)
    requires TableInv(s, {}) && c in s.channels
    ensures TableInv(Dropped(s, c), {c}) && !Listed(Dropped(s, c), c)
  {
    var s1 := Dropped(s, c);
    var u := s.channels[c].user;
    forall d | d in s1.channels && d != c && s1.channels[d].life == Open ensures Listed(s1, d) {
      assert Listed(s, d);
      if s.channels[d].user == u { assert d in s.clients[u] - {c}; }
    }
  }

  lemma DroppedKeepsReaders(s: HubState, c: ClientId)
    requires EntriesHaveReaders(s) && ListedAreOpen(s) && c in s.channels
    ensures EntriesHaveReaders(Dropped(s, c))
  {
    var s1 := Dropped(s, c);
    var u := s.channels[c].user;
    forall v | v in s1.clients ensures HasReader(s1, v) {
      if v == u {
        var d :| d in s.clients[u] - {c};
        assert d in s1.readers && s1.channels[d].user == u;
      } else {
        var d :| d in s.readers && d in s.channels && s.channels[d].user == v;
        assert d in s1.readers && s1.channels[d].user == v;
      }
    }
  }

  /** What holds once the connection is out of the table, before its channel is closed. */
  ghost predicate Leaving(s: HubState, c: ClientId) {
    && TableInv(s, {c}) && AllFaithful(s, {c}) && EntriesHaveReaders(s) && PresenceInv(s)
    && s.status == Running && c in s.channels && c !in s.readers && !Listed(s, c)
  }

  lemma OfflineIsPresent(s: HubState, u: UserId)
    requires ListedAreOpen(s) && u !in s.clients
    requires forall v :: v != u ==> (v in s.clients <==> LastPresence(s.log, v) == Some(true))
    ensures PresenceInv(Deliver(s, Entry(Presence(u, false), Everyone, true)))
  {
    var e := Entry(Presence(u, false), Everyone, true);
    DeliverFrame(s, e);
    forall v { LastPresenceExtends(s.log, e, v); }
  }

  /** A pass leaves a connection alone that is not listed. */
  lemma DeliverSkips(s: HubState, e: Entry, c: ClientId)
    requires ListedAreOpen(s) && c in s.channels && !Listed(s, c)
    ensures Deliver(s, e).channels[c] == s.channels[c] && !Listed(Deliver(s, e), c)
  {
    DeliverAt(s, e, c);
    DeliverFrame(s, e);
    if s.channels[c].user in s.clients { DeliverAtUser(s, e, s.channels[c].user); }
  }

  lemma OfflineKeepsLeaving(s: HubState, c: ClientId, u: UserId)
    requires TableInv(s, {c}) && AllFaithful(s, {c}) && EntriesHaveReaders(s) && s.status == Running
    requires c in s.channels && c !in s.readers && !Listed(s, c) && u !in s.clients
    requires forall v :: v != u ==> (v in s.clients <==> LastPresence(s.log, v) == Some(true))
    ensures var e := Entry(Presence(u, false), Everyone, true);
      Leaving(Deliver(s, e), c) && Deliver(s, e).channels[c] == s.channels[c]
  {
    var e := Entry(Presence(u, false), Everyone, true);
    DeliverFrame(s, e);
    DeliverKeepsTable(s, e, {c});
    DeliverIsFaithful(s, e, {c});
    DeliverKeepsReaders(s, e);
    DeliverSkips(s, e, c);
    OfflineIsPresent(s, u);
  }

  /** The table part of the unregister branch: drop the connection, announce the user when nothing is left. */
  lemma RemoveIs(s: HubState, c: ClientId)
    requires c in s.channels
    ensures var u := s.channels[c].user; var s0 := s.(readers := s.readers - {c});
      Remove(s0, c, u) ==
        if u in s.clients && s.clients[u] - {c} == {}
        then Deliver(Dropped(s, c), Entry(Presence(u, false), Everyone, true)) else Dropped(s, c)
  {
  }

  lemma DroppedReachesLeaving(s: HubState, c: ClientId)
    requires Inv(s) && Enabled(s, Leave(c))
    ensures var s1 := Dropped(s, c); var u := s.channels[c].user;
      && TableInv(s1, {c}) && AllFaithful(s1, {c}) && EntriesHaveReaders(s1) && !Listed(s1, c)
      && (forall v :: v != u ==> (v in s1.clients <==> LastPresence(s1.log, v) == Some(true)))
      && (u in s.clients && s.clients[u] - {c} == {} ==> u !in s1.clients)
      && (!(u in s.clients && s.clients[u] - {c} == {}) ==> PresenceInv(s1))
  {
    DroppedKeepsTable(s, c);
    DroppedKeepsReaders(s, c);
  }

  lemma RemoveReachesLeaving(s: HubState, c: ClientId)
    requires Inv(s) && Enabled(s, Leave(c))
    ensures var s1 := Remove(s.(readers := s.readers - {c}), c, s.channels[c].user);
      && Leaving(s1, c) && s1.channels[c] == s.channels[c]
      && |s.log| <= |s1.log| && s1.log[..|s.log|] == s.log
  {
    var u := s.channels[c].user;
    DroppedReachesLeaving(s, c);
    RemoveIs(s, c);
    if u in s.clients && s.clients[u] - {c} == {} {
      OfflineKeepsLeaving(Dropped(s, c), c, u);
      DeliverFrame(Dropped(s, c), Entry(Presence(u, false), Everyone, true));
    }
  }

  lemma {:induction false} HeardAppend(log: seq<Entry>, more: seq<Entry>, lo: nat, hi: nat, u: UserId)
    requires lo <= hi <= |log| && |log| <= |more| && more[..|log|] == log
    ensures Heard(more, lo, hi, u) == Heard(log, lo, hi, u)
    decreases hi
  {
    if lo < hi {
      HeardAppend(log, more, lo, hi - 1, u);
      assert more[hi - 1] == more[..|log|][hi - 1];
    }
  }

  /** A channel closed at the end of an earlier log is faithful to the longer one. */
  lemma ClosedIsFaithful(log: seq<Entry>, more: seq<Entry>, ch: Channel, why: Removal)
    requires |log| <= |more| && more[..|log|] == log && Faithful(log, ch)
    ensures ch.life == Open && why != Evicted ==> Faithful(more, Shut(ch, |log|, why))
    ensures ch.life.Closed? ==> Faithful(more, ch)
  {
    HeardAppend(log, more, ch.since, EndOf(log, ch), ch.user);
    if IsEvicted(ch) { assert more[ch.life.at] == more[..|log|][ch.life.at]; }
  }

  lemma CloseKeepsTable(s: HubState, c: ClientId, at: nat)
    requires Leaving(s, c)
    ensures TableInv(CloseChannel(s, c, at, Unregistered), {})
  {
    var s' := CloseChannel(s, c, at, Unregistered);
    forall d | d in s.channels && d != c ensures s'.channels[d] == s.channels[d] && Listed(s', d) == Listed(s, d) {
    }
  }

  lemma CloseKeepsReaders(s: HubState, c: ClientId, at: nat)
    requires Leaving(s, c)
    ensures EntriesHaveReaders(CloseChannel(s, c, at, Unregistered))
  {
    var s' := CloseChannel(s, c, at, Unregistered);
    forall u | u in s.clients ensures HasReader(s', u) {
      var d :| d in s.readers && d in s.channels && s.channels[d].user == u;
      assert s'.channels[d] == s.channels[d];
    }
  }

  /** The channel that leaves was faithful to the log as it was; the others are to the log as it is. */
  lemma CloseIsFaithful(log: seq<Entry>, s: HubState, c: ClientId)
    requires Leaving(s, c) && |log| <= |s.log| && s.log[..|log|] == log && Faithful(log, s.channels[c])
    ensures AllFaithful(CloseChannel(s, c, |log|, Unregistered), {})
  {
    ClosedIsFaithful(log, s.log, s.channels[c], Unregistered);
    var s' := CloseChannel(s, c, |log|, Unregistered);
    forall d | d in s'.channels ensures Faithful(s'.log, s'.channels[d]) {
      if d != c { assert s'.channels[d] == s.channels[d]; }
    }
  }

  lemma CloseKeepsInv(s: HubState, c: ClientId, log: seq<Entry>)
    requires Leaving(s, c) && |log| <= |s.log| && s.log[..|log|] == log && Faithful(log, s.channels[c])
    ensures Inv(CloseChannel(s, c, |log|, Unregistered))
  {
    CloseKeepsTable(s, c, |log|);
    CloseKeepsReaders(s, c, |log|);
    CloseIsFaithful(log, s, c);
  }

  lemma LeaveKeepsInv(s: HubState, c: ClientId)
    requires Inv(s) && Enabled(s, Leave(c))
    ensures Inv(Unregister(s, c))
    ensures Unregister(s, c).status ==
      if s.channels[c].life.Closed? then Panicked(CloseOfClosedChannel) else Running
  {
    RemoveReachesLeaving(s, c);
    assert Faithful(s.log, s.channels[c]);
    CloseKeepsInv(Remove(s.(readers := s.readers - {c}), c, s.channels[c].user), c, s.log);
  }

  // ----------------------------------------------------------------- the other actions

  lemma DirectKeepsInv(s: HubState, msg: WSMessage, reply: Reply)
    requires Inv(s) && s.status == Running
    ensures Inv(HandleUserMessage(s, msg, reply)) && HandleUserMessage(s, msg, reply).status == Running
  {
    if reply.NoService? {
      DeliverKeepsInv(s, ErrorEntry(msg.senderID, "message service unavailable"));
    } else if ExtractMessageText(msg.data).None? {
      DeliverKeepsInv(s, ErrorEntry(msg.senderID, "message text missing"));
    } else if reply.Refused? {
      DeliverKeepsInv(s, ErrorEntry(msg.senderID, "message could not be sent"));
    } else {
      DeliverKeepsInv(s, MessageEntry(reply.row));
      DeliverKeepsInv(Deliver(s, MessageEntry(reply.row)), AckEntry(reply.row));
    }
  }

  lemma RouteKeepsInv(s: HubState, msg: WSMessage, reply: Reply)
    requires Inv(s) && s.status == Running
    ensures Inv(Route(s, msg, reply)) && Route(s, msg, reply).status == Running
  {
    if msg.event == "user_online" {
      DeliverKeepsInv(s, Entry(Presence(msg.senderID, true), Everyone, false));
    } else if msg.event == "user_offline" {
      DeliverKeepsInv(s, Entry(Presence(msg.senderID, false), Everyone, false));
    } else if IsDirectMessage(msg) {
      DirectKeepsInv(s, msg, reply);
    } else if msg.receiverType == RECEIVER_USER {
      DeliverKeepsInv(s, Entry(msg, User(msg.receiverID), false));
    } else if msg.receiverType == RECEIVER_GROUP && msg.receiverID in s.rooms {
      DeliverKeepsInv(s, Entry(msg, Members(s.rooms[msg.receiverID]), false));
    }
  }

  lemma DrainIsFaithful(log: seq<Entry>, ch: Channel)
    requires Faithful(log, ch) && ch.buf != []
    ensures Faithful(log, ch.(buf := ch.buf[1..], written := ch.written + [ch.buf[0]]))
  {
    assert ch.written + [ch.buf[0]] + ch.buf[1..] == Stream(ch);
  }

  lemma DrainKeepsTable(s: HubState, c: ClientId)
    requires TableInv(s, {}) && Enabled(s, Drain(c))
    ensures TableInv(Next(s, Drain(c)), {})
  {
    var s' := Next(s, Drain(c));
    forall d | d in s.channels
      ensures s'.channels[d].life == s.channels[d].life && Listed(s', d) == Listed(s, d)
    {
    }
  }

  lemma DrainKeepsReaders(s: HubState, c: ClientId)
    requires EntriesHaveReaders(s) && Enabled(s, Drain(c))
    ensures EntriesHaveReaders(Next(s, Drain(c)))
  {
    var s' := Next(s, Drain(c));
    forall u | u in s.clients ensures HasReader(s', u) {
      var d :| d in s.readers && d in s.channels && s.channels[d].user == u;
      assert s'.channels[d].user == u;
    }
  }

  lemma DrainKeepsInv(s: HubState, c: ClientId)
    requires Inv(s) && Enabled(s, Drain(c))
    ensures Inv(Next(s, Drain(c)))
  {
    assert Faithful(s.log, s.channels[c]);
    DrainIsFaithful(s.log, s.channels[c]);
    DrainKeepsTable(s, c);
    DrainKeepsReaders(s, c);
    assert AllFaithful(Next(s, Drain(c)), {});
  }

  lemma StopKeepsInv(s: HubState)
    requires Inv(s) && s.status == Running
    ensures Inv(Quit(s)) && Quit(s).status == Stopped
    ensures forall c | c in s.channels :: Quit(s).channels[c].life.Closed?
  {
    NeverSendsOnClosed(s, Everyone);
    forall c | c in s.channels
      ensures Quit(s).channels[c].life.Closed? && Faithful(s.log, Quit(s).channels[c])
    {
      ClosedIsFaithful(s.log, s.log, s.channels[c], ShutDown);
    }
  }

  /**
   Every enabled action keeps the invariant. The hub panics exactly when it
   processes the unregister of an evicted connection, and always on the second close.
   */
  lemma NextKeepsInv(s: HubState, a: Action)
    requires Inv(s) && Enabled(s, a)
    ensures Inv(Next(s, a))
    ensures Next(s, a).status.Panicked? <==> a.Leave? && IsEvicted(s.channels[a.c])
    ensures Next(s, a).status.Panicked? ==> Next(s, a).status.cause == CloseOfClosedChannel
  {
    match a
    case Join(c, u) => JoinKeepsInv(s, c, u);
    case Leave(c) => LeaveKeepsInv(s, c);
    case Frame(c, msg, reply) => RouteKeepsInv(s, Stamped(s, c, msg), reply);
    case Drain(c) => DrainKeepsInv(s, c);
    case Room(id, members) =>
    case Stop => StopKeepsInv(s);
  }
}
