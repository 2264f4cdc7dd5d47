/** Theorems about every run of the hub, from an empty hub through any interleaving of its environment. */
module HubRuns {
  import opened Common
  import opened Envelope
  import opened HubModel
  import opened HubInvariants

  lemma {:induction false} ReachableInv(acts: seq<Action>)
    requires Exec(acts).Some?
    ensures Inv(Exec(acts).value)
  {
    if acts == [] {
      assert PresenceInv(NEW_HUB);
    } else {
      ReachableInv(acts[..|acts| - 1]);
      NextKeepsInv(Exec(acts[..|acts| - 1]).value, acts[|acts| - 1]);
    }
  }

  /**
   Channel safety. The table lists only open channels, each under its own user,
   and every open channel is listed; the hub never sends on a closed channel; it
   has panicked exactly when the last action was the unregister of a connection
   that had been evicted before.
   */
  lemma ChannelSafety(acts: seq<Action>)
    requires Exec(acts).Some?
    ensures var s := Exec(acts).value;
      && (forall u, c | u in s.clients && c in s.clients[u] ::
            c in s.channels && s.channels[c].user == u && s.channels[c].life == Open)
      && (forall c | c in s.channels :: s.channels[c].life == Open ==> Listed(s, c))
      && s.status != Panicked(SendOnClosedChannel)
    ensures Exec(acts).value.status.Panicked? <==>
      acts != [] && var a := acts[|acts| - 1];
      a.Leave? && IsEvicted(Exec(acts[..|acts| - 1]).value.channels[a.c])
  {
    ReachableInv(acts);
    if acts != [] {
      ReachableInv(acts[..|acts| - 1]);
      NextKeepsInv(Exec(acts[..|acts| - 1]).value, acts[|acts| - 1]);
    }
  }

  /** Once evicted, a connection whose read pump ends brings the hub down: nothing but Stop prevents it. */
  lemma EvictionIsFatal(acts: seq<Action>, c: ClientId)
    requires Exec(acts).Some?
    requires var s := Exec(acts).value;
      s.status == Running && c in s.readers && c in s.channels && IsEvicted(s.channels[c])
    ensures Exec(acts + [Leave(c)]).Some?
    ensures Exec(acts + [Leave(c)]).value.status == Panicked(CloseOfClosedChannel)
  {
    ReachableInv(acts);
    assert (acts + [Leave(c)])[..|acts + [Leave(c)]| - 1] == acts;
    NextKeepsInv(Exec(acts).value, Leave(c));
  }

  lemma ExecExtends(acts: seq<Action>, a: Action)
    requires Exec(acts).Some? && Enabled(Exec(acts).value, a)
    ensures Exec(acts + [a]) == Some(Next(Exec(acts).value, a))
  {
    assert (acts + [a])[..|acts + [a]| - 1] == acts;
  }

  /** Connection 0 of user "a" is listed with n messages waiting that nobody drains. */
  ghost predicate Backlog(s: HubState, n: nat) {
    && s.status == Running && Listed(s, 0) && s.channels[0].user == "a" && |s.channels[0].buf| == n && 0 in s.readers
    && s.clients["a"] == {0}
  }

  /** Connection 0 was the only one of user "a", and was evicted; its read pump still runs. */
  ghost predicate OnlyOneEvicted(s: HubState) {
    && s.status == Running && 0 in s.readers && 0 in s.channels && IsEvicted(s.channels[0])
    && s.channels.Keys == {0} && s.channels[0].user == "a" && "a" in s.clients && s.clients["a"] == {}
  }

  /** A connection's frame to its own user is relayed. */
  lemma FrameToSelf(s: HubState, msg: WSMessage)
    requires 0 in s.channels && Enabled(s, Frame(0, msg, Refused)) && s.channels[0].user == "a"
    requires msg == WSMessage("typing", "a", "a", RECEIVER_USER, NoData)
    ensures Next(s, Frame(0, msg, Refused)) == Deliver(s, Entry(msg, User("a"), false))
  {
  }

  /** One more frame addressed to "a": it is buffered, or the connection evicted. */
  lemma OneMoreFrame(s: HubState, n: nat, msg: WSMessage)
    requires Inv(s) && Backlog(s, n) && n <= CAPACITY && s.channels.Keys == {0}
    requires msg == WSMessage("typing", "a", "a", RECEIVER_USER, NoData)
    ensures var s' := Next(s, Frame(0, msg, Refused));
      && s'.channels.Keys == {0}
      && if n < CAPACITY then Backlog(s', n + 1) else OnlyOneEvicted(s')
  {
    var e := Entry(msg, User("a"), false);
    FrameToSelf(s, msg);
    DeliverFrame(s, e);
    DeliverAt(s, e, 0);
    DeliverAtUser(s, e, "a");
  }

  /** A connection that stops draining, 256 messages to it, and one more. */
  lemma EvictingRun() returns (acts: seq<Action>)
    ensures |acts| == CAPACITY + 1 && Exec(acts).Some? && OnlyOneEvicted(Exec(acts).value)
  {
    var msg := WSMessage("typing", "a", "a", RECEIVER_USER, NoData);
    assert Exec([]) == Some(NEW_HUB);
    OnlineOnEveryJoin([], 0, "a");
    ExecExtends([], Join(0, "a"));
    acts := [] + [Join(0, "a")];
    var n: nat := 1;
    while n <= CAPACITY
      invariant 1 <= n <= CAPACITY + 1 && |acts| == n && Exec(acts).Some? && Exec(acts).value.channels.Keys == {0}
      invariant if n <= CAPACITY then Backlog(Exec(acts).value, n) else OnlyOneEvicted(Exec(acts).value)
    {
      ReachableInv(acts);
      OneMoreFrame(Exec(acts).value, n, msg);
      ExecExtends(acts, Frame(0, msg, Refused));
      acts := acts + [Frame(0, msg, Refused)];
      n := n + 1;
    }
  }

  /** The panic does occur: the evicted connection disconnects. */
  lemma PanicIsReachable() returns (acts: seq<Action>)
    ensures Exec(acts).Some? && Exec(acts).value.status == Panicked(CloseOfClosedChannel)
  {
    acts := EvictingRun();
    EvictionIsFatal(acts, 0);
    acts := acts + [Leave(0)];
  }

  // ------------------------------------------------------------ closed at most once

  /** Nothing is drained, and a closed channel stays as it was closed; a close records what was drained before. */
  predicate Undrained(ch: Channel, ch': Channel) {
    && ch'.written == ch.written
    && (ch'.life == ch.life || (ch.life == Open && ch'.life.Closed? && ch'.life.drained == |ch'.written|))
  }

  lemma DeliverUndrained(s: HubState, e: Entry, c: ClientId)
    requires ListedAreOpen(s) && c in s.channels
    ensures Undrained(s.channels[c], Deliver(s, e).channels[c]) && ListedAreOpen(Deliver(s, e))
  {
    DeliverAt(s, e, c);
    DeliverKeepsListed(s, e);
  }

  lemma DirectUndrained(s: HubState, msg: WSMessage, reply: Reply, c: ClientId)
    requires ListedAreOpen(s) && c in s.channels
    ensures Undrained(s.channels[c], HandleUserMessage(s, msg, reply).channels[c])
  {
    if reply.Stored? && ExtractMessageText(msg.data).Some? {
      DeliverUndrained(s, MessageEntry(reply.row), c);
      DeliverUndrained(Deliver(s, MessageEntry(reply.row)), AckEntry(reply.row), c);
    } else {
      forall text { DeliverUndrained(s, ErrorEntry(msg.senderID, text), c); }
    }
  }

  lemma RouteUndrained(s: HubState, msg: WSMessage, reply: Reply, c: ClientId)
    requires ListedAreOpen(s) && c in s.channels
    ensures Undrained(s.channels[c], Route(s, msg, reply).channels[c])
  {
    if msg.event == "user_online" || msg.event == "user_offline" || !IsDirectMessage(msg) {
      forall m, a { DeliverUndrained(s, Entry(m, a, false), c); }
    } else {
      DirectUndrained(s, msg, reply, c);
    }
  }

  lemma RemoveUndrained(s: HubState, d: ClientId, c: ClientId)
    requires TableInv(s, {}) && d in s.channels && c in s.channels
    ensures Undrained(s.channels[c], Remove(s.(readers := s.readers - {d}), d, s.channels[d].user).channels[c])
  {
    DroppedKeepsTable(s, d);
    DeliverUndrained(Dropped(s, d), Entry(Presence(s.channels[d].user, false), Everyone, true), c);
  }

  lemma LeaveUndrained(s: HubState, d: ClientId, c: ClientId)
    requires TableInv(s, {}) && d in s.channels && c in s.channels
    ensures c in Unregister(s, d).channels && Undrained(s.channels[c], Unregister(s, d).channels[c])
  {
    RemoveUndrained(s, d, c);
  }

  /** Only its own write pump drains a channel; every other step at most closes it, once. */
  lemma OnlyThePumpDrains(s: HubState, a: Action, c: ClientId)
    requires Inv(s) && Enabled(s, a) && c in s.channels
    ensures c in Next(s, a).channels
    ensures if a == Drain(c) then Next(s, a).channels[c].life == s.channels[c].life
      else Undrained(s.channels[c], Next(s, a).channels[c])
  {
    match a
    case Join(d, u) =>
      AddedKeepsTable(s, d, u);
      DeliverUndrained(Added(s, d, u), Entry(Presence(u, true), Everyone, true), c);
    case Leave(d) => LeaveUndrained(s, d, c);
    case Frame(d, msg, reply) => RouteUndrained(s, Stamped(s, d, msg), reply, c);
    case Drain(d) =>
    case Room(id, members) =>
    case Stop => NeverSendsOnClosed(s, Everyone);
  }

  /** Across unregister, eviction and quit, a channel is closed at most once in a whole run. */
  lemma {:induction false} ClosedAtMostOnce(acts: seq<Action>, k: nat, c: ClientId)
    requires Exec(acts).Some? && k <= |acts| && Exec(acts[..k]).Some?
    requires c in Exec(acts[..k]).value.channels && Exec(acts[..k]).value.channels[c].life.Closed?
    ensures c in Exec(acts).value.channels
    ensures Exec(acts).value.channels[c].life == Exec(acts[..k]).value.channels[c].life
  {
    if k == |acts| {
      assert acts[..k] == acts;
    } else {
      var front := acts[..|acts| - 1];
      assert front[..k] == acts[..k];
      ClosedAtMostOnce(front, k, c);
      ReachableInv(front);
      OnlyThePumpDrains(Exec(front).value, acts[|acts| - 1], c);
    }
  }

  // ---------------------------------------------------------------------- delivery

  /** The log positions that lo..hi address to user u. */
  function Positions(log: seq<Entry>, lo: nat, hi: nat, u: UserId): (ps: seq<nat>)
    requires lo <= hi <= |log|
    ensures Increasing(ps)
    ensures forall p :: p in ps <==> lo <= p < hi && Hears(log[p].audience, u)
    decreases hi
  {
    if lo == hi then []
    else
      var ps := Positions(log, lo, hi - 1, u);
      if Hears(log[hi - 1].audience, u) then
        assert forall p :: p in ps + [hi - 1] <==> p in ps || p == hi - 1;
        assert forall i | 0 <= i < |ps| :: ps[i] in ps;
        ps + [hi - 1]
      else ps
  }

  /** The messages of ms are the log entries at the positions ps. */
  ghost predicate At(log: seq<Entry>, ms: seq<WSMessage>, ps: seq<nat>) {
    |ms| == |ps| && forall i | 0 <= i < |ps| :: ps[i] < |log| && ms[i] == log[ps[i]].msg
  }

  lemma AtExtends(log: seq<Entry>, ms: seq<WSMessage>, ps: seq<nat>, p: nat)
    requires At(log, ms, ps) && p < |log|
    ensures At(log, ms + [log[p].msg], ps + [p])
  {
  }

  lemma {:induction false} HeardAtPositions(log: seq<Entry>, lo: nat, hi: nat, u: UserId)
    requires lo <= hi <= |log|
    ensures At(log, Heard(log, lo, hi, u), Positions(log, lo, hi, u))
    decreases hi
  {
    if lo < hi {
      var ms, ps := Heard(log, lo, hi - 1, u), Positions(log, lo, hi - 1, u);
      HeardAtPositions(log, lo, hi - 1, u);
      AtExtends(log, ms, ps, hi - 1);
      assert Heard(log, lo, hi, u) == if Hears(log[hi - 1].audience, u) then ms + [log[hi - 1].msg] else ms;
      assert Positions(log, lo, hi, u) == if Hears(log[hi - 1].audience, u) then ps + [hi - 1] else ps;
    }
  }

  /** The elements of p that also occur in q, in p's order. */
  function Restrict(p: seq<nat>, q: seq<nat>): seq<nat> {
    if p == [] then []
    else
      var x := p[|p| - 1];
      Restrict(p[..|p| - 1], q) + if x in q then [x] else []
  }

  lemma {:induction false} RestrictKeepsOrder(p: seq<nat>, q: seq<nat>)
    requires Increasing(p)
    ensures Increasing(Restrict(p, q))
    ensures forall x :: x in Restrict(p, q) <==> x in p && x in q
  {
    if p != [] {
      var front := p[..|p| - 1];
      assert p == front + [p[|p| - 1]];
      RestrictKeepsOrder(front, q);
      var r := Restrict(front, q);
      assert forall i | 0 <= i < |r| :: r[i] in r && r[i] in front;
    }
  }

  /** The messages of a channel are the log entries at the given positions. */
  ghost predicate Carries(log: seq<Entry>, ch: Channel, ps: seq<nat>) {
    && Increasing(ps)
    && (forall p :: p in ps <==> ch.since <= p < EndOf(log, ch) && p < |log| && Hears(log[p].audience, ch.user))
    && At(log, Stream(ch), ps)
  }

  /**
   The connection's stream, tied to the log. An evicted one missed an entry addressed to it,
   when exactly 256 of the messages before that entry had not been drained.
   */
  ghost predicate DeliveredExactly(s: HubState, c: ClientId, ps: seq<nat>)
    requires c in s.channels
  {
    var ch := s.channels[c];
    && Carries(s.log, ch, ps)
    && (Listed(s, c) ==> EndOf(s.log, ch) == |s.log|)
    && (IsEvicted(ch) ==>
        && ch.life.at < |s.log| && Hears(s.log[ch.life.at].audience, ch.user)
        && ch.life.drained <= |ch.written| && |ps| == ch.life.drained + CAPACITY)
  }

  lemma FaithfulIsExact(s: HubState, c: ClientId) returns (ps: seq<nat>)
    requires ListedAreOpen(s) && c in s.channels && Faithful(s.log, s.channels[c])
    ensures DeliveredExactly(s, c, ps)
  {
    var ch := s.channels[c];
    ps := Positions(s.log, ch.since, EndOf(s.log, ch), ch.user);
    HeardAtPositions(s.log, ch.since, EndOf(s.log, ch), ch.user);
  }

  /**
   Delivery, in any reachable state. What a connection was sent is exactly, in
   order, the log addressed to it from its registration until it left the table;
   an evicted one left at an entry addressed to it, behind a full buffer.
   */
  lemma DeliveryIsExact(acts: seq<Action>, c: ClientId) returns (ps: seq<nat>)
    requires Exec(acts).Some? && c in Exec(acts).value.channels
    ensures DeliveredExactly(Exec(acts).value, c, ps)
  {
    ReachableInv(acts);
    assert Faithful(Exec(acts).value.log, Exec(acts).value.channels[c]);
    ps := FaithfulIsExact(Exec(acts).value, c);
  }

  lemma OnlyJoinAdds(s: HubState, a: Action, c: ClientId)
    requires Inv(s) && Enabled(s, a) && c !in s.channels && c in Next(s, a).channels
    ensures a.Join? && a.c == c && Next(s, a).channels[c].life == Open
  {
    match a
    case Join(d, u) =>
      AddedKeepsTable(s, d, u);
      DeliverAt(Added(s, d, u), Entry(Presence(u, true), Everyone, true), c);
    case Frame(d, msg, reply) =>
    case _ =>
  }

  /** A step that evicts an open connection leaves it with a full buffer, and records what was drained. */
  lemma EvictedNow(s: HubState, a: Action, c: ClientId)
    requires Inv(s) && Enabled(s, a) && c in s.channels && s.channels[c].life == Open
    requires c in Next(s, a).channels && IsEvicted(Next(s, a).channels[c])
    ensures var ch := Next(s, a).channels[c]; |ch.buf| == CAPACITY && |ch.written| == ch.life.drained
  {
    OnlyThePumpDrains(s, a, c);
    NextKeepsInv(s, a);
    assert Faithful(Next(s, a).log, Next(s, a).channels[c]);
  }

  lemma ClosedBefore(s: HubState, a: Action, c: ClientId)
    requires Inv(s) && Enabled(s, a) && c in Next(s, a).channels && Next(s, a).channels[c].life.Closed?
    ensures c in s.channels
    ensures s.channels[c].life.Closed? ==> s.channels[c].life == Next(s, a).channels[c].life
  {
    if c in s.channels { OnlyThePumpDrains(s, a, c); } else { OnlyJoinAdds(s, a, c); }
  }

  /** The state of a run before its action k, or at its end. */
  function StateAt(acts: seq<Action>, k: nat): HubState
    requires Exec(acts).Some? && k <= |acts|
  {
    PrefixRuns(acts, k);
    Exec(acts[..k]).value
  }

  lemma PrefixRuns(acts: seq<Action>, k: nat)
    requires Exec(acts).Some? && k <= |acts|
    ensures Exec(acts[..k]).Some?
  {
    PrefixHolds((s: seq<Action>) => Exec(s).Some?, acts, k);
  }

  lemma LastStep(acts: seq<Action>)
    requires Exec(acts).Some? && acts != []
    ensures var front := acts[..|acts| - 1]; var a := acts[|acts| - 1];
      && Exec(front).Some? && Enabled(Exec(front).value, a)
      && Exec(acts).value == Next(Exec(front).value, a)
  {
  }

  lemma StepAt(acts: seq<Action>, k: nat)
    requires Exec(acts).Some? && k < |acts|
    ensures Enabled(StateAt(acts, k), acts[k]) && StateAt(acts, k + 1) == Next(StateAt(acts, k), acts[k])
  {
    var upto := acts[..k + 1];
    PrefixRuns(acts, k + 1);
    LastStep(upto);
    assert upto[..|upto| - 1] == acts[..k] && upto[|upto| - 1] == acts[k];
  }

  /** The connection is open before the step; the step evicts it, with 256 messages waiting and the others drained. */
  ghost predicate EvictedByStep(s: HubState, s': HubState, c: ClientId) {
    && c in s.channels && s.channels[c].life == Open
    && c in s'.channels && IsEvicted(s'.channels[c])
    && |s'.channels[c].buf| == CAPACITY && |s'.channels[c].written| == s'.channels[c].life.drained
  }

  /** Looking back from a step that ends with c closed. */
  lemma EvictedOrBefore(s: HubState, a: Action, c: ClientId)
    requires Inv(s) && Enabled(s, a) && c in Next(s, a).channels && IsEvicted(Next(s, a).channels[c])
    ensures c in s.channels
    ensures if s.channels[c].life == Open then EvictedByStep(s, Next(s, a), c)
      else s.channels[c].life == Next(s, a).channels[c].life
  {
    ClosedBefore(s, a, c);
    if s.channels[c].life == Open { EvictedNow(s, a, c); }
  }

  lemma EvictedAt(acts: seq<Action>, k: nat, c: ClientId)
    requires Exec(acts).Some? && k < |acts|
    requires c in StateAt(acts, k + 1).channels && IsEvicted(StateAt(acts, k + 1).channels[c])
    ensures c in StateAt(acts, k).channels
    ensures if StateAt(acts, k).channels[c].life == Open then EvictedByStep(StateAt(acts, k), StateAt(acts, k + 1), c)
      else StateAt(acts, k).channels[c].life == StateAt(acts, k + 1).channels[c].life
  {
    PrefixRuns(acts, k);
    ReachableInv(acts[..k]);
    StepAt(acts, k);
    EvictedOrBefore(StateAt(acts, k), acts[k], c);
  }

  lemma {:induction false} EvictedUpTo(acts: seq<Action>, n: nat, c: ClientId) returns (k: nat)
    requires Exec(acts).Some? && n <= |acts|
    requires c in StateAt(acts, n).channels && IsEvicted(StateAt(acts, n).channels[c])
    ensures k < n && EvictedByStep(StateAt(acts, k), StateAt(acts, k + 1), c)
    ensures StateAt(acts, k + 1).channels[c].life == StateAt(acts, n).channels[c].life
  {
    k := n - 1;
    EvictedAt(acts, k, c);
    if StateAt(acts, k).channels[c].life.Closed? { k := EvictedUpTo(acts, k, c); }
  }

  /**
   Every evicted connection was evicted by one step of the run: open before it, and
   right after it closed with exactly 256 messages waiting, the recorded number drained.
   */
  lemma EvictedBehindFullBuffer(acts: seq<Action>, c: ClientId) returns (k: nat)
    requires Exec(acts).Some? && c in Exec(acts).value.channels && IsEvicted(Exec(acts).value.channels[c])
    ensures k < |acts| && EvictedByStep(StateAt(acts, k), StateAt(acts, k + 1), c)
    ensures StateAt(acts, k + 1).channels[c].life == Exec(acts).value.channels[c].life
  {
    assert acts[..|acts|] == acts;
    k := EvictedUpTo(acts, |acts|, c);
  }

  /** Any two connections see the messages they have in common in the same order. */
  lemma CommonOrder(acts: seq<Action>, c: ClientId, d: ClientId) returns (p: seq<nat>, q: seq<nat>)
    requires Exec(acts).Some? && c in Exec(acts).value.channels && d in Exec(acts).value.channels
    ensures var s := Exec(acts).value; Carries(s.log, s.channels[c], p) && Carries(s.log, s.channels[d], q)
    ensures Restrict(p, q) == Restrict(q, p)
  {
    p := DeliveryIsExact(acts, c);
    q := DeliveryIsExact(acts, d);
    RestrictKeepsOrder(p, q);
    RestrictKeepsOrder(q, p);
    IncreasingUnique(Restrict(p, q), Restrict(q, p));
  }

  lemma OfferEvictsIff(ch: Channel, msg: WSMessage, at: nat)
    requires ch.life == Open && |ch.buf| <= CAPACITY
    ensures var ch' := Offer(ch, msg, at);
      && (IsEvicted(ch') <==> |ch.buf| == CAPACITY)
      && Stream(ch') == Stream(ch) + (if IsEvicted(ch') then [] else [msg])
  {
    assert ch.written + (ch.buf + [msg]) == Stream(ch) + [msg];
  }

  lemma EvictedIsUnlisted(s: HubState, e: Entry, c: ClientId)
    requires ListedAreOpen(s) && Listed(s, c) && Hears(e.audience, s.channels[c].user)
    ensures Listed(Deliver(s, e), c) <==> HasRoom(s, c)
  {
    DeliverFrame(s, e);
    DeliverAt(s, e, c);
    DeliverAtUser(s, e, s.channels[c].user);
  }

  /** A listed connection that a message is addressed to is evicted if and only if 256 are buffered. */
  lemma EvictedIffFull(s: HubState, e: Entry, c: ClientId)
    requires Inv(s) && Listed(s, c) && Hears(e.audience, s.channels[c].user)
    ensures var ch' := Deliver(s, e).channels[c];
      && (IsEvicted(ch') <==> |s.channels[c].buf| == CAPACITY)
      && Stream(ch') == Stream(s.channels[c]) + (if IsEvicted(ch') then [] else [e.msg])
    ensures IsEvicted(Deliver(s, e).channels[c]) <==> !Listed(Deliver(s, e), c)
  {
    assert Faithful(s.log, s.channels[c]);
    DeliverAt(s, e, c);
    OfferEvictsIff(s.channels[c], e.msg, |s.log|);
    EvictedIsUnlisted(s, e, c);
  }

  // ---------------------------------------------------------------------- presence

  /** Some connection of the user is registered and open. */
  ghost predicate Connected(s: HubState, u: UserId) {
    exists c :: c in s.channels && s.channels[c].user == u && s.channels[c].life == Open
  }

  ghost predicate WasEvicted(s: HubState, u: UserId) {
    exists c :: c in s.channels && s.channels[c].user == u && IsEvicted(s.channels[c])
  }

  /**
   Until it is stopped, the hub has a table entry for a user exactly when its last
   announcement about them was user_online. Whoever is connected has one, and
   whoever has one has a read pump running. While the hub runs, a user none of
   whose own connections was evicted has an entry exactly when connected, and
   exactly when a read pump of theirs runs.
   */
  lemma PresenceAgreement(acts: seq<Action>, u: UserId)
    requires Exec(acts).Some? && Exec(acts).value.status != Stopped
    ensures var s := Exec(acts).value;
      && (u in s.clients <==> LastPresence(s.log, u) == Some(true))
      && (Connected(s, u) ==> u in s.clients) && (u in s.clients ==> HasReader(s, u))
      && (s.status == Running && !WasEvicted(s, u) ==>
            (u in s.clients <==> Connected(s, u)) && (u in s.clients <==> HasReader(s, u)))
  {
    var s := Exec(acts).value;
    ReachableInv(acts);
    forall c | c in s.channels && s.channels[c].user == u && s.channels[c].life == Open ensures u in s.clients {
      assert Listed(s, c);
    }
  }

  predicate AnnouncesOffline(log: seq<Entry>, k: nat, u: UserId)
    requires k <= |log|
  {
    exists i :: k <= i < |log| && log[i].fromHub && log[i].msg == Presence(u, false)
  }

  /** The hub announces user_offline in a step exactly when the step removes the user's entry. */
  lemma OfflineIffRemoved(acts: seq<Action>, a: Action, u: UserId)
    requires Exec(acts).Some? && Enabled(Exec(acts).value, a) && !a.Stop?
    ensures var s := Exec(acts).value; var s' := Next(s, a);
      && |s.log| <= |s'.log|
      && (AnnouncesOffline(s'.log, |s.log|, u) <==> u in s.clients && u !in s'.clients)
  {
    var s := Exec(acts).value;
    ReachableInv(acts);
    match a
    case Join(c, v) =>
      AddedKeepsTable(s, c, v);
      DeliverFrame(Added(s, c, v), Entry(Presence(v, true), Everyone, true));
    case Leave(c) =>
      RemovalAnnounced(s, c, u);
    case Frame(c, msg, reply) =>
      RouteIsSilent(s, Stamped(s, c, msg), reply);
    case Drain(c) =>
    case Room(id, members) =>
  }

  /** The step neither announces anything nor adds or removes a table entry. */
  ghost predicate Silent(s: HubState, s': HubState) {
    && s'.clients.Keys == s.clients.Keys && |s.log| <= |s'.log|
    && forall i :: |s.log| <= i < |s'.log| ==> !Announces(s'.log[i])
  }

  lemma DeliverIsSilent(s: HubState, e: Entry)
    requires ListedAreOpen(s) && !Announces(e)
    ensures Silent(s, Deliver(s, e))
  {
    DeliverFrame(s, e);
  }

  lemma DirectIsSilent(s: HubState, msg: WSMessage, reply: Reply)
    requires Inv(s) && s.status == Running
    ensures Silent(s, HandleUserMessage(s, msg, reply))
  {
    if reply.Stored? && ExtractMessageText(msg.data).Some? {
      var s1 := Deliver(s, MessageEntry(reply.row));
      DeliverKeepsInv(s, MessageEntry(reply.row));
      DeliverIsSilent(s, MessageEntry(reply.row));
      DeliverFrame(s, MessageEntry(reply.row));
      DeliverIsSilent(s1, AckEntry(reply.row));
      DeliverFrame(s1, AckEntry(reply.row));
    } else {
      forall text { DeliverIsSilent(s, ErrorEntry(msg.senderID, text)); }
    }
  }

  lemma RouteIsSilent(s: HubState, msg: WSMessage, reply: Reply)
    requires Inv(s) && s.status == Running
    ensures Silent(s, Route(s, msg, reply))
  {
    if msg.event == "user_online" || msg.event == "user_offline" || !IsDirectMessage(msg) {
      forall m, a { DeliverIsSilent(s, Entry(m, a, false)); }
    } else {
      DirectIsSilent(s, msg, reply);
    }
  }

  lemma RemovalLogs(s: HubState, c: ClientId)
    requires Inv(s) && Enabled(s, Leave(c))
    ensures var s' := Unregister(s, c); var v := s.channels[c].user;
      if v in s.clients && s.clients[v] - {c} == {} then
        s'.log == s.log + [Entry(Presence(v, false), Everyone, true)] && s'.clients.Keys == s.clients.Keys - {v}
      else s'.log == s.log && s'.clients.Keys == s.clients.Keys
  {
    RemoveIs(s, c);
    DroppedKeepsTable(s, c);
    DeliverFrame(Dropped(s, c), Entry(Presence(s.channels[c].user, false), Everyone, true));
  }

  lemma OneEntryAnnounces(log: seq<Entry>, e: Entry, u: UserId)
    ensures AnnouncesOffline(log + [e], |log|, u) <==> e.fromHub && e.msg == Presence(u, false)
  {
    assert (log + [e])[|log|] == e;
  }

  lemma RemovalAnnounced(s: HubState, c: ClientId, u: UserId)
    requires Inv(s) && Enabled(s, Leave(c))
    ensures var s' := Unregister(s, c);
      && |s.log| <= |s'.log|
      && (AnnouncesOffline(s'.log, |s.log|, u) <==> u in s.clients && u !in s'.clients)
  {
    RemovalLogs(s, c);
    OneEntryAnnounces(s.log, Entry(Presence(s.channels[c].user, false), Everyone, true), u);
  }

  /** Contrary to docs/CODEBASE.md:212, user_online goes out on every registration, not only a user's first. */
  lemma OnlineOnEveryJoin(acts: seq<Action>, c: ClientId, u: UserId)
    requires Exec(acts).Some? && Enabled(Exec(acts).value, Join(c, u))
    ensures var s := Exec(acts).value; var s' := Next(s, Join(c, u));
      && s'.log == s.log + [Entry(Presence(u, true), Everyone, true)]
      && Listed(s', c) && s'.channels[c] == Channel(u, [Presence(u, true)], [], |s.log|, Open)
  {
    var s := Exec(acts).value;
    var e := Entry(Presence(u, true), Everyone, true);
    ReachableInv(acts);
    AddedKeepsTable(s, c, u);
    DeliverFrame(Added(s, c, u), e);
    DeliverAt(Added(s, c, u), e, c);
    DeliverAtUser(Added(s, c, u), e, u);
  }
}
