/**
 Presence under eviction. An eviction takes a connection out of its user's entry
 but leaves the entry in the table, so a user can stay announced online without
 any connection; here is exactly when.
 */
module HubPresence {
  import opened Common
  import opened Envelope
  import opened HubModel
  import opened HubInvariants
  import opened HubRuns

  /** The entry of a user all of whose connections were evicted. */
  predicate EmptyEntry(s: HubState, u: UserId) {
    u in s.clients && s.clients[u] == {}
  }

  // ----------------------------------------------------------------- the passes of a step

  /** One pass over the table, and the state it starts from. */
  datatype Pass = Pass(before: HubState, entry: Entry)

  /** The passes a step makes, in order; a stored direct message makes two, the second on what the first one left. */
  function Passes(s: HubState, a: Action): seq<Pass>
    requires Enabled(s, a)
  {
    match a
    case Join(c, u) => [Pass(Added(s, c, u), Entry(Presence(u, true), Everyone, true))]
    case Leave(c) =>
      var u := s.channels[c].user;
      if u in s.clients && s.clients[u] - {c} == {}
      then [Pass(Dropped(s, c), Entry(Presence(u, false), Everyone, true))] else []
    case Frame(c, msg, reply) => RoutePasses(s, Stamped(s, c, msg), reply)
    case _ => []
  }

  function RoutePasses(s: HubState, m: WSMessage, reply: Reply): seq<Pass> {
    if IsDirectMessage(m) then DirectPasses(s, m, reply)
    else var e := Relayed(m, s.rooms); if e.Some? then [Pass(s, e.value)] else []
  }

  function DirectPasses(s: HubState, m: WSMessage, reply: Reply): seq<Pass> {
    if reply.NoService? then [Pass(s, ErrorEntry(m.senderID, "message service unavailable"))]
    else if ExtractMessageText(m.data).None? then [Pass(s, ErrorEntry(m.senderID, "message text missing"))]
    else if reply.Refused? then [Pass(s, ErrorEntry(m.senderID, "message could not be sent"))]
    else [Pass(s, MessageEntry(reply.row)), Pass(Deliver(s, MessageEntry(reply.row)), AckEntry(reply.row))]
  }

  function Logged(ps: seq<Pass>): seq<Entry> {
    if ps == [] then [] else [ps[0].entry] + Logged(ps[1..])
  }

  lemma LoggedShort(p: Pass, q: Pass)
    ensures Logged([p]) == [p.entry] && Logged([p, q]) == [p.entry, q.entry]
  {
    assert [p][1..] == [] && [q][1..] == [] && [p, q][1..] == [q];
    assert Logged([]) == [] && Logged([q]) == [q.entry];
  }

  lemma DirectIsLogged(s: HubState, m: WSMessage, reply: Reply)
    requires Inv(s) && s.status == Running
    ensures HandleUserMessage(s, m, reply).log == s.log + Logged(DirectPasses(s, m, reply))
  {
    var ps := DirectPasses(s, m, reply);
    DeliverFrame(s, ps[0].entry);
    LoggedShort(ps[0], ps[|ps| - 1]);
    if |ps| == 2 {
      DeliverKeepsListed(s, ps[0].entry);
      DeliverFrame(ps[1].before, ps[1].entry);
      assert s.log + [ps[0].entry] + [ps[1].entry] == s.log + Logged(ps);
    }
  }

  lemma RelayIsLogged(s: HubState, m: WSMessage, reply: Reply)
    requires ListedAreOpen(s) && !IsDirectMessage(m)
    ensures Route(s, m, reply).log == s.log + Logged(RoutePasses(s, m, reply))
  {
    var e := Relayed(m, s.rooms);
    if e.Some? {
      DeliverFrame(s, e.value);
      LoggedShort(Pass(s, e.value), Pass(s, e.value));
    }
  }

  lemma JoinIsLogged(s: HubState, c: ClientId, u: UserId)
    requires Inv(s) && Enabled(s, Join(c, u))
    ensures Register(s, c, u).log == s.log + Logged(Passes(s, Join(c, u)))
  {
    var p := Pass(Added(s, c, u), Entry(Presence(u, true), Everyone, true));
    AddedKeepsTable(s, c, u);
    DeliverFrame(p.before, p.entry);
    LoggedShort(p, p);
  }

  lemma LeaveIsLogged(s: HubState, c: ClientId)
    requires Inv(s) && Enabled(s, Leave(c))
    ensures Unregister(s, c).log == s.log + Logged(Passes(s, Leave(c)))
  {
    var p := Pass(Dropped(s, c), Entry(Presence(s.channels[c].user, false), Everyone, true));
    RemovalLogs(s, c);
    LoggedShort(p, p);
  }

  /** What a step logs is what its passes deliver. */
  lemma PassesAreLogged(s: HubState, a: Action)
    requires Inv(s) && Enabled(s, a)
    ensures Next(s, a).log == s.log + Logged(Passes(s, a))
  {
    match a
    case Join(c, u) => JoinIsLogged(s, c, u);
    case Leave(c) => LeaveIsLogged(s, c);
    case Frame(c, msg, reply) =>
      var m := Stamped(s, c, msg);
      if IsDirectMessage(m) { DirectIsLogged(s, m, reply); } else { RelayIsLogged(s, m, reply); }
    case Drain(c) =>
    case Room(id, members) =>
    case Stop =>
  }

  // ------------------------------------------------------------------ when an entry empties

  ghost predicate BuffersFit(s: HubState) {
    forall c | c in s.channels :: |s.channels[c].buf| <= CAPACITY
  }

  /** The pass is addressed to the user, who has connections listed, and 256 messages wait on every one of them. */
  ghost predicate FindsAllFull(p: Pass, u: UserId) {
    && u in p.before.clients && p.before.clients[u] != {} && Hears(p.entry.audience, u)
    && forall c | c in p.before.clients[u] :: c in p.before.channels && |p.before.channels[c].buf| == CAPACITY
  }

  /** A pass leaves the user an empty entry iff there was one, or all of the user's listed connections were full. */
  lemma PassEmptiesIff(p: Pass, u: UserId)
    requires ListedAreOpen(p.before) && BuffersFit(p.before)
    ensures EmptyEntry(Deliver(p.before, p.entry), u) <==> EmptyEntry(p.before, u) || FindsAllFull(p, u)
  {
    DeliverFrame(p.before, p.entry);
    if u in p.before.clients {
      DeliverAtUser(p.before, p.entry, u);
      var after := Deliver(p.before, p.entry).clients[u];
      if after != {} { var c :| c in after; }
      forall c | c in p.before.clients[u] && HasRoom(p.before, c) ensures after != {} {
        assert !Hears(p.entry.audience, u) || c in after;
      }
    }
  }

  lemma InvBuffersFit(s: HubState)
    requires AllFaithful(s, {})
    ensures BuffersFit(s)
  {
    forall c | c in s.channels ensures |s.channels[c].buf| <= CAPACITY { assert Faithful(s.log, s.channels[c]); }
  }

  ghost predicate OneFindsAllFull(ps: seq<Pass>, u: UserId) {
    exists i :: 0 <= i < |ps| && FindsAllFull(ps[i], u)
  }

  /** Some pass of the step finds all of the user's listed connections full. */
  ghost predicate StepFindsAllFull(s: HubState, a: Action, u: UserId)
    requires Enabled(s, a)
  {
    OneFindsAllFull(Passes(s, a), u)
  }

  lemma JoinEmptiesIff(s: HubState, c: ClientId, v: UserId, u: UserId)
    requires Inv(s) && Enabled(s, Join(c, v)) && !EmptyEntry(s, u)
    ensures EmptyEntry(Register(s, c, v), u) <==>
      FindsAllFull(Pass(Added(s, c, v), Entry(Presence(v, true), Everyone, true)), u)
  {
    AddedKeepsTable(s, c, v);
    InvBuffersFit(s);
    PassEmptiesIff(Pass(Added(s, c, v), Entry(Presence(v, true), Everyone, true)), u);
    if u == v { assert c in Added(s, c, v).clients[u]; }
  }

  lemma RemoveEmptiesIff(s: HubState, c: ClientId, u: UserId)
    requires c in s.channels && ListedAreOpen(s) && ListedAreOpen(Dropped(s, c)) && BuffersFit(s) && !EmptyEntry(s, u)
    ensures var v := s.channels[c].user;
      var p := Pass(Dropped(s, c), Entry(Presence(v, false), Everyone, true));
      EmptyEntry(Remove(s.(readers := s.readers - {c}), c, v), u) <==>
        (v in s.clients && s.clients[v] - {c} == {} && FindsAllFull(p, u))
  {
    RemoveIs(s, c);
    PassEmptiesIff(Pass(Dropped(s, c), Entry(Presence(s.channels[c].user, false), Everyone, true)), u);
    assert !EmptyEntry(Dropped(s, c), u);
  }

  lemma OnePass(p: Pass, u: UserId)
    ensures OneFindsAllFull([p], u) <==> FindsAllFull(p, u)
  {
    assert [p][0] == p;
  }

  lemma LeaveEmptiesIff(s: HubState, c: ClientId, u: UserId)
    requires Inv(s) && Enabled(s, Leave(c)) && !EmptyEntry(s, u)
    ensures EmptyEntry(Unregister(s, c), u) <==> OneFindsAllFull(Passes(s, Leave(c)), u)
  {
    DroppedKeepsTable(s, c);
    InvBuffersFit(s);
    RemoveEmptiesIff(s, c, u);
    OnePass(Pass(Dropped(s, c), Entry(Presence(s.channels[c].user, false), Everyone, true)), u);
  }

  lemma DirectEmptiesIff(s: HubState, m: WSMessage, reply: Reply, u: UserId)
    requires Inv(s) && s.status == Running && !EmptyEntry(s, u)
    ensures EmptyEntry(HandleUserMessage(s, m, reply), u) <==> OneFindsAllFull(DirectPasses(s, m, reply), u)
  {
    var ps := DirectPasses(s, m, reply);
    InvBuffersFit(s);
    PassEmptiesIff(ps[0], u);
    if |ps| == 2 {
      DeliverKeepsInv(s, MessageEntry(reply.row));
      InvBuffersFit(ps[1].before);
      PassEmptiesIff(ps[1], u);
    }
  }

  lemma RelayEmptiesIff(s: HubState, m: WSMessage, reply: Reply, u: UserId)
    requires ListedAreOpen(s) && BuffersFit(s) && !IsDirectMessage(m) && !EmptyEntry(s, u)
    ensures EmptyEntry(Route(s, m, reply), u) <==> OneFindsAllFull(RoutePasses(s, m, reply), u)
  {
    var e := Relayed(m, s.rooms);
    if e.Some? {
      PassEmptiesIff(Pass(s, e.value), u);
      OnePass(Pass(s, e.value), u);
    }
  }

  /** A step leaves the user an empty entry, who had none, iff one of its passes finds all listed connections full. */
  lemma StepEmptiesIff(s: HubState, a: Action, u: UserId)
    requires Inv(s) && Enabled(s, a) && !EmptyEntry(s, u)
    ensures EmptyEntry(Next(s, a), u) <==> StepFindsAllFull(s, a, u)
  {
    match a
    case Join(c, v) =>
      JoinEmptiesIff(s, c, v, u);
      assert Passes(s, a)[0] == Pass(Added(s, c, v), Entry(Presence(v, true), Everyone, true));
    case Leave(c) => LeaveEmptiesIff(s, c, u);
    case Frame(c, msg, reply) =>
      var m := Stamped(s, c, msg);
      if IsDirectMessage(m) {
        DirectEmptiesIff(s, m, reply, u);
      } else {
        InvBuffersFit(s);
        RelayEmptiesIff(s, m, reply, u);
      }
    case Drain(c) =>
    case Room(id, members) =>
    case Stop => NeverSendsOnClosed(s, Everyone);
  }

  // ------------------------------------------------------------------------- whole runs

  ghost predicate NeverEmpty(acts: seq<Action>, u: UserId)
    requires Exec(acts).Some?
  {
    forall k | 0 <= k <= |acts| :: !EmptyEntry(StateAt(acts, k), u)
  }

  /** Some pass of action k finds all of the user's listed connections full. */
  ghost predicate FindsAllFullAt(acts: seq<Action>, k: nat, u: UserId)
    requires Exec(acts).Some? && k < |acts|
  {
    StepAt(acts, k);
    StepFindsAllFull(StateAt(acts, k), acts[k], u)
  }

  ghost predicate NeverAllFull(acts: seq<Action>, u: UserId)
    requires Exec(acts).Some?
  {
    forall k | 0 <= k < |acts| :: !FindsAllFullAt(acts, k, u)
  }

  lemma InvAt(acts: seq<Action>, k: nat)
    requires Exec(acts).Some? && k <= |acts|
    ensures Inv(StateAt(acts, k))
  {
    PrefixRuns(acts, k);
    ReachableInv(acts[..k]);
  }

  lemma EmptiesAt(acts: seq<Action>, k: nat, u: UserId)
    requires Exec(acts).Some? && k < |acts| && !EmptyEntry(StateAt(acts, k), u)
    ensures EmptyEntry(StateAt(acts, k + 1), u) <==> FindsAllFullAt(acts, k, u)
  {
    InvAt(acts, k);
    StepAt(acts, k);
    StepEmptiesIff(StateAt(acts, k), acts[k], u);
  }

  lemma {:induction false} NotEmptyAt(acts: seq<Action>, k: nat, u: UserId)
    requires Exec(acts).Some? && k <= |acts| && NeverAllFull(acts, u)
    ensures !EmptyEntry(StateAt(acts, k), u)
  {
    if k > 0 {
      NotEmptyAt(acts, k - 1, u);
      EmptiesAt(acts, k - 1, u);
    }
  }

  /** In a run the user never has an empty entry iff no pass ever finds all of the user's listed connections full. */
  lemma NeverEmptyIff(acts: seq<Action>, u: UserId)
    requires Exec(acts).Some?
    ensures NeverEmpty(acts, u) <==> NeverAllFull(acts, u)
  {
    if NeverAllFull(acts, u) {
      forall k | 0 <= k <= |acts| ensures !EmptyEntry(StateAt(acts, k), u) { NotEmptyAt(acts, k, u); }
    }
    if NeverEmpty(acts, u) {
      forall k | 0 <= k < |acts| ensures !FindsAllFullAt(acts, k, u) {
        EmptiesAt(acts, k, u);
        assert !EmptyEntry(StateAt(acts, k + 1), u);
      }
    }
  }

  /** Until the hub is stopped: last announced online exactly when connected. */
  ghost predicate PresenceRight(s: HubState, u: UserId) {
    s.status != Stopped ==> (LastPresence(s.log, u) == Some(true) <==> Connected(s, u))
  }

  lemma RightIffNotEmpty(s: HubState, u: UserId)
    requires Inv(s)
    ensures PresenceRight(s, u) <==> !EmptyEntry(s, u)
  {
    if u in s.clients && s.clients[u] != {} {
      var c :| c in s.clients[u];
      assert s.channels[c].user == u && s.channels[c].life == Open;
    }
    forall c | c in s.channels && s.channels[c].user == u && s.channels[c].life == Open
      ensures u in s.clients && s.clients[u] != {}
    {
      assert Listed(s, c);
    }
  }

  /**
   What the hub announces about a user is right throughout a run, online exactly
   while connected, if and only if no pass ever finds all of the user's listed
   connections full.
   */
  lemma PresenceRightThroughoutIff(acts: seq<Action>, u: UserId)
    requires Exec(acts).Some?
    ensures (forall k | 0 <= k <= |acts| :: PresenceRight(StateAt(acts, k), u)) <==> NeverAllFull(acts, u)
  {
    NeverEmptyIff(acts, u);
    forall k | 0 <= k <= |acts|
      ensures PresenceRight(StateAt(acts, k), u) <==> !EmptyEntry(StateAt(acts, k), u)
    {
      InvAt(acts, k);
      RightIffNotEmpty(StateAt(acts, k), u);
    }
  }

  /** A run of 257 actions after which "a" is announced online, with an entry in the table, and has no connection left. */
  lemma OnlineWithoutConnection() returns (acts: seq<Action>)
    ensures |acts| == 257 && Exec(acts).Some?
    ensures var s := Exec(acts).value;
      && s.status == Running && EmptyEntry(s, "a")
      && LastPresence(s.log, "a") == Some(true) && !Connected(s, "a")
    ensures !NeverAllFull(acts, "a")
  {
    acts := EvictingRun();
    ReachableInv(acts);
    NeverEmptyIff(acts, "a");
    assert acts[..|acts|] == acts && StateAt(acts, |acts|) == Exec(acts).value;
  }
}
