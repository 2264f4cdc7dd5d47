/**
 Concurrent service calls: each call is a thread with a program counter, and the
 scheduler runs one SQL statement (or transaction) of one thread at a time.
 */
module Interleaving {
  import opened Common
  import opened Store
  import opened StoreInvariants
  import Text

  /** Where a call stands. The payload is what it still needs. */
  datatype Thread =
    | AtFriends(id: Uuid, from: UserId, to: UserId)  // CreateRequest: AreFriends
    | AtForward(id: Uuid, from: UserId, to: UserId)  // GetPendingRequest(from, to)
    | AtReverse(id: Uuid, from: UserId, to: UserId)  // GetPendingRequest(to, from)
    | AtBlocked(id: Uuid, from: UserId, to: UserId)  // IsBlocked
    | AtBlockCheck(m: Message)                       // CreateMessage: IsBlocked
    | AtFriendCheck(m: Message)                      // CreateMessage: AreFriends
    | AtWrite(w: Write)                              // the one write of the call
    | Finished

  datatype Shared = Shared(tables: Tables, threads: map<nat, Thread>, used: set<Uuid>)

  const START := Shared(EMPTY, map[], {})

  /** Argument checks, before any statement. */
  function Begin(c: Call): Thread {
    match c
    case Create(id, from, to) =>
      if to == "" || from == "" || from == to then Finished else AtFriends(id, from, to)
    case Accept(id, user) => AtWrite(MarkAccepted(id, user))
    case Reject(id, user) => AtWrite(MarkRejected(id, user))
    case Cancel(id, user) => AtWrite(Delete(id, user))
    case Block(user, target) => AtWrite(BlockPair(user, target))
    case Unblock(user, target) => AtWrite(UnblockPair(user, target))
    case Send(id, now, from, to, text, isGroup) =>
      var body := Text.TrimSpace(text);
      var m := Message(id, from, to, body, isGroup, now);
      if from == "" || to == "" || body == "" then Finished
      else if isGroup then AtWrite(Append(m))
      else AtBlockCheck(m)
  }

  /** One statement of a thread. */
  function Advance(t: Tables, th: Thread): (Tables, Thread) {
    match th
    case AtFriends(id, from, to) => (t, if AreFriends(t, from, to) then Finished else AtForward(id, from, to))
    case AtForward(id, from, to) => (t, if HasPending(t, from, to) then Finished else AtReverse(id, from, to))
    case AtReverse(id, from, to) => (t, if HasPending(t, to, from) then Finished else AtBlocked(id, from, to))
    case AtBlocked(id, from, to) => (t, if IsBlocked(t, to, from) then Finished else AtWrite(Insert(id, from, to)))
    case AtBlockCheck(m) => (t, if IsBlocked(t, m.sender, m.receiver) then Finished else AtFriendCheck(m))
    case AtFriendCheck(m) => (t, if AreFriends(t, m.sender, m.receiver) then AtWrite(Append(m)) else Finished)
    case AtWrite(w) => (Execute(t, w), Finished)
    case Finished => (t, Finished)
  }

  function StepsLeft(th: Thread): nat {
    match th
    case AtFriends(_, _, _) => 5
    case AtForward(_, _, _) => 4
    case AtReverse(_, _, _) => 3
    case AtBlocked(_, _, _) => 2
    case AtBlockCheck(_) => 3
    case AtFriendCheck(_) => 2
    case AtWrite(_) => 1
    case Finished => 0
  }

  function RunAlone(t: Tables, th: Thread): Tables
    decreases StepsLeft(th)
  {
    if th == Finished then t else RunAlone(Advance(t, th).0, Advance(t, th).1)
  }

  lemma CreateAlone(t: Tables, id: Uuid, from: UserId, to: UserId)
    ensures RunAlone(t, AtFriends(id, from, to)) ==
      if AreFriends(t, from, to) || PendingBetween(t, from, to) || IsBlocked(t, to, from) then t
      else Execute(t, Insert(id, from, to))
  {
    var write := RunAlone(t, AtWrite(Insert(id, from, to)));
    assert write == RunAlone(Execute(t, Insert(id, from, to)), Finished);
    var blocked := RunAlone(t, AtBlocked(id, from, to));
    assert blocked == if IsBlocked(t, to, from) then RunAlone(t, Finished) else write;
    var reverse := RunAlone(t, AtReverse(id, from, to));
    assert reverse == if HasPending(t, to, from) then RunAlone(t, Finished) else blocked;
    assert RunAlone(t, AtForward(id, from, to)) == if HasPending(t, from, to) then RunAlone(t, Finished) else reverse;
  }

  lemma SendAlone(t: Tables, m: Message)
    ensures RunAlone(t, AtBlockCheck(m)) ==
      if IsBlocked(t, m.sender, m.receiver) || !AreFriends(t, m.sender, m.receiver) then t
      else Execute(t, Append(m))
  {
    var write := RunAlone(t, AtWrite(Append(m)));
    assert write == RunAlone(Execute(t, Append(m)), Finished);
    assert RunAlone(t, AtFriendCheck(m)) == if AreFriends(t, m.sender, m.receiver) then write else RunAlone(t, Finished);
  }

  lemma WriteAlone(t: Tables, w: Write)
    ensures RunAlone(t, AtWrite(w)) == Execute(t, w)
  {
    assert RunAlone(Execute(t, w), Finished) == Execute(t, w);
  }

  lemma SendCallAlone(t: Tables, c: Call)
    requires c.Send?
    ensures RunAlone(t, Begin(c)) == Apply(t, c)
  {
    var m := Message(c.id, c.from, c.to, Text.TrimSpace(c.text), c.isGroup, c.now);
    WriteAlone(t, Append(m));
    SendAlone(t, m);
  }

  /** A call left undisturbed does exactly what the atomic service call does. */
  lemma AloneIsAtomic(t: Tables, c: Call)
    ensures RunAlone(t, Begin(c)) == Apply(t, c)
  {
    if c.Send? {
      SendCallAlone(t, c);
    } else if c.Create? {
      CreateAlone(t, c.id, c.from, c.to);
    } else {
      WriteAlone(t, Begin(c).w);
    }
  }

  // ------------------------------------------------------------------ runs

  datatype Action = Start(thread: nat, call: Call) | Step(thread: nat)

  /** A new request gets an id nobody used before; everything else is unrestricted. */
  predicate Enabled(s: Shared, a: Action) {
    match a
    case Start(i, c) => i !in s.threads && (c.Create? ==> c.id !in s.used)
    case Step(i) => i in s.threads
  }

  function Take(s: Shared, a: Action): Shared
    requires Enabled(s, a)
  {
    match a
    case Start(i, c) =>
      s.(threads := s.threads[i := Begin(c)], used := if c.Create? then s.used + {c.id} else s.used)
    case Step(i) =>
      var (t, th) := Advance(s.tables, s.threads[i]);
      s.(tables := t, threads := s.threads[i := th])
  }

  /** The state after a schedule, or None when some action of it was not enabled. */
  function Exec(acts: seq<Action>): Option<Shared> {
    if acts == [] then Some(START)
    else
      var s := Exec(acts[..|acts| - 1]);
      var a := acts[|acts| - 1];
      if s.Some? && Enabled(s.value, a) then Some(Take(s.value, a)) else None
  }

  /** The write that an action is about to perform. */
  function WriteAt(s: Shared, a: Action): Write {
    if a.Step? && a.thread in s.threads && s.threads[a.thread].AtWrite? then s.threads[a.thread].w else Nothing
  }

  /** The state of a schedule before its action k, or at its end. */
  function StateAt(acts: seq<Action>, k: nat): Shared
    requires Exec(acts).Some? && k <= |acts|
  {
    PrefixRuns(acts, k);
    Exec(acts[..k]).value
  }

  /** A prefix of an executable schedule is executable. */
  lemma PrefixRuns(acts: seq<Action>, k: nat)
    requires Exec(acts).Some? && k <= |acts|
    ensures Exec(acts[..k]).Some?
  {
    PrefixHolds((s: seq<Action>) => Exec(s).Some?, acts, k);
  }

  lemma StepAt(acts: seq<Action>, k: nat)
    requires Exec(acts).Some? && k < |acts|
    ensures Enabled(StateAt(acts, k), acts[k]) && StateAt(acts, k + 1) == Take(StateAt(acts, k), acts[k])
  {
    var upto := acts[..k + 1];
    PrefixRuns(acts, k + 1);
    assert upto[..|upto| - 1] == acts[..k] && upto[|upto| - 1] == acts[k];
  }

  lemma StateAtEnd(acts: seq<Action>)
    requires Exec(acts).Some?
    ensures StateAt(acts, |acts|) == Exec(acts).value
  {
    assert acts[..|acts|] == acts;
  }

  /** The write that action k of a schedule performs, on the tables it finds. */
  function WriteOfStep(acts: seq<Action>, k: nat): Write
    requires Exec(acts).Some? && k < |acts|
  {
    WriteAt(StateAt(acts, k), acts[k])
  }

  lemma StepWrites(acts: seq<Action>, k: nat)
    requires Exec(acts).Some? && k < |acts|
    ensures StateAt(acts, k + 1).tables == Execute(StateAt(acts, k).tables, WriteOfStep(acts, k))
  {
    StepAt(acts, k);
    ActionIsWrite(StateAt(acts, k), acts[k]);
  }

  lemma ActionIsWrite(s: Shared, a: Action)
    requires Enabled(s, a)
    ensures Take(s, a).tables == Execute(s.tables, WriteAt(s, a))
  {
  }

  lemma EmptyIsConsistent()
    ensures Consistent(EMPTY)
  {
    assert forall a, b :: !AcceptedBetween(EMPTY, a, b);
  }

  /** Mutual, irreflexive friendship = accepted requests, and one pending request per pair, under every schedule. */
  lemma {:induction false} StructureSurvivesInterleaving(acts: seq<Action>)
    requires Exec(acts).Some?
    ensures Structural(Exec(acts).value.tables)
    ensures forall a, b :: (a, b) in Exec(acts).value.tables.friends ==>
      a != b && (b, a) in Exec(acts).value.tables.friends
  {
    if acts == [] {
      EmptyIsConsistent();
    } else {
      var s := Exec(acts[..|acts| - 1]).value;
      var a := acts[|acts| - 1];
      StructureSurvivesInterleaving(acts[..|acts| - 1]);
      ActionIsWrite(s, a);
      WriteKeepsStructure(s.tables, WriteAt(s, a));
      FriendshipIsMutual(Exec(acts).value.tables);
    }
  }

  // ---------------------------------------------------------------- looking back

  /** Action k of the schedule is a statement of the thread, which stands at pc. */
  ghost predicate StepsFrom(acts: seq<Action>, k: nat, thread: nat, pc: Thread)
    requires Exec(acts).Some?
  {
    && k < |acts| && acts[k] == Step(thread)
    && thread in StateAt(acts, k).threads && StateAt(acts, k).threads[thread] == pc
  }

  /** A schedule without its last action goes through the same states. */
  lemma FrontState(acts: seq<Action>, k: nat)
    requires Exec(acts).Some? && k < |acts|
    ensures Exec(acts[..|acts| - 1]).Some? && StateAt(acts[..|acts| - 1], k) == StateAt(acts, k)
  {
    assert acts[..|acts| - 1][..k] == acts[..k];
  }

  /** The thread's latest action before moment n, after which it stands where it still stands at n. */
  lemma {:induction false} LookBack(acts: seq<Action>, n: nat, thread: nat) returns (k: nat)
    requires Exec(acts).Some? && n <= |acts| && thread in StateAt(acts, n).threads
    ensures k < n && acts[k].thread == thread && thread in StateAt(acts, k + 1).threads
    ensures StateAt(acts, k + 1).threads[thread] == StateAt(acts, n).threads[thread]
  {
    k := n - 1;
    StepAt(acts, k);
    if acts[k].thread != thread { k := LookBack(acts, k, thread); }
  }

  /** Where a thread came from, unless its call has just begun. */
  lemma CameFrom(acts: seq<Action>, n: nat, thread: nat) returns (k: nat)
    requires Exec(acts).Some? && n <= |acts| && thread in StateAt(acts, n).threads
    ensures k < n
    ensures acts[k].Start? ==> Begin(acts[k].call) == StateAt(acts, n).threads[thread]
    ensures acts[k].Step? ==>
      && acts[k] == Step(thread) && thread in StateAt(acts, k).threads
      && Advance(StateAt(acts, k).tables, StateAt(acts, k).threads[thread]).1 == StateAt(acts, n).threads[thread]
  {
    k := LookBack(acts, n, thread);
    StepAt(acts, k);
  }

  // ------------------------------------------------- building schedules

  ghost predicate Reachable(s: Shared) {
    exists acts :: Exec(acts) == Some(s)
  }

  lemma ReachNext(s: Shared, a: Action)
    requires Reachable(s) && Enabled(s, a)
    ensures Reachable(Take(s, a))
  {
    var acts :| Exec(acts) == Some(s);
    assert (acts + [a])[..|acts + [a]| - 1] == acts;
    assert Exec(acts + [a]) == Some(Take(s, a));
  }

  /** A request call whose four reads all pass stands before its INSERT. */
  lemma ReachInsert(s: Shared, i: nat, id: Uuid, from: UserId, to: UserId) returns (s': Shared)
    requires Reachable(s) && i !in s.threads && id !in s.used
    requires from != "" && to != "" && from != to
    requires !AreFriends(s.tables, from, to) && !PendingBetween(s.tables, from, to) && !IsBlocked(s.tables, from, to)
    ensures Reachable(s')
    ensures s' == Shared(s.tables, s.threads[i := AtWrite(Insert(id, from, to))], s.used + {id})
  {
    s' := Take(s, Start(i, Create(id, from, to)));
    ReachNext(s, Start(i, Create(id, from, to)));
    var n := 0;
    while n < 4
      invariant 0 <= n <= 4 && Reachable(s') && i in s'.threads
      invariant s'.tables == s.tables && s'.used == s.used + {id}
      invariant s'.threads == s.threads[i := s'.threads[i]]
      invariant s'.threads[i] == match n
        case 0 => AtFriends(id, from, to)
        case 1 => AtForward(id, from, to)
        case 2 => AtReverse(id, from, to)
        case 3 => AtBlocked(id, from, to)
        case _ => AtWrite(Insert(id, from, to))
    {
      ReachNext(s', Step(i));
      s' := Take(s', Step(i));
      n := n + 1;
    }
  }

  /** A thread that stands before its write carries it out. */
  lemma ReachThreadWrite(s: Shared, i: nat) returns (s': Shared)
    requires Reachable(s) && i in s.threads && s.threads[i].AtWrite?
    ensures Reachable(s')
    ensures s' == Shared(Execute(s.tables, s.threads[i].w), s.threads[i := Finished], s.used)
  {
    ReachNext(s, Step(i));
    s' := Take(s, Step(i));
  }

  /** A single-statement call started and carried out at once. */
  lemma ReachWrite(s: Shared, i: nat, c: Call, w: Write) returns (s': Shared)
    requires Reachable(s) && i !in s.threads && !c.Create? && Begin(c) == AtWrite(w)
    ensures Reachable(s')
    ensures s' == Shared(Execute(s.tables, w), s.threads[i := Finished], s.used)
  {
    ReachNext(s, Start(i, c));
    s' := Take(s, Start(i, c));
    assert s'.threads[i := Finished] == s.threads[i := Finished];
    s' := ReachThreadWrite(s', i);
  }

  lemma ReachStart()
    ensures Reachable(START)
  {
    assert Exec([]) == Some(START);
  }

  /** The pair "a", "b" becomes friends through request 7. */
  lemma ReachFriends() returns (s: Shared)
    ensures Reachable(s) && s.threads.Keys == {0, 1} && s.tables.messages == []
    ensures s.tables.friends == {("a", "b"), ("b", "a")} && s.tables.blocks == {}
  {
    ReachStart();
    s := ReachInsert(START, 0, 7, "a", "b");
    s := ReachThreadWrite(s, 0);
    assert s.tables.requests == map[7 := Request("a", "b", Pending)];
    s := ReachWrite(s, 1, Accept(7, "b"), MarkAccepted(7, "b"));
  }

  /** One read of a thread that lets it go on. */
  lemma ReachRead(s: Shared, i: nat, th: Thread) returns (s': Shared)
    requires Reachable(s) && i in s.threads && Advance(s.tables, s.threads[i]) == (s.tables, th)
    ensures Reachable(s') && s' == s.(threads := s.threads[i := th])
  {
    ReachNext(s, Step(i));
    s' := Take(s, Step(i));
  }

  /** A direct message whose two checks pass stands before its INSERT. */
  lemma ReachAppend(s: Shared, i: nat, m: Message) returns (s': Shared)
    requires Reachable(s) && i in s.threads && s.threads[i] == AtBlockCheck(m)
    requires !IsBlocked(s.tables, m.sender, m.receiver) && AreFriends(s.tables, m.sender, m.receiver)
    ensures Reachable(s') && s'.tables == s.tables && s'.threads == s.threads[i := AtWrite(Append(m))]
  {
    s' := ReachRead(s, i, AtFriendCheck(m));
    var threads := s'.threads;
    s' := ReachRead(s', i, AtWrite(Append(m)));
    assert threads[i := AtWrite(Append(m))] == s.threads[i := AtWrite(Append(m))];
  }

  lemma ReachCheckedMessage(s: Shared, i: nat, text: string, m: Message) returns (s': Shared)
    requires Reachable(s) && i !in s.threads
    requires !IsBlocked(s.tables, m.sender, m.receiver) && AreFriends(s.tables, m.sender, m.receiver)
    requires m.sender != "" && m.receiver != "" && m.body == Text.TrimSpace(text) != "" && !m.isGroup
    ensures Reachable(s') && s'.tables == s.tables && s'.threads == s.threads[i := AtWrite(Append(m))]
  {
    var c := Send(m.id, m.createdAt, m.sender, m.receiver, text, false);
    assert Begin(c) == AtBlockCheck(m);
    ReachNext(s, Start(i, c));
    var s0 := s.(threads := s.threads[i := AtBlockCheck(m)]);
    assert Take(s, Start(i, c)) == s0;
    s' := ReachAppend(s0, i, m);
    assert s0.threads[i := AtWrite(Append(m))] == s.threads[i := AtWrite(Append(m))];
  }
}
