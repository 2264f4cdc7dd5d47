/**
 What the gap between a call's reads and its write can break, and exactly when:
 for each property of the store, the writes that break it, over whole schedules.
 */
module StaleReads {
  import opened Common
  import opened Store
  import opened StoreInvariants
  import opened Interleaving

  /** The tables have the property at every moment of the schedule. */
  ghost predicate Always(acts: seq<Action>, good: Tables -> bool)
    requires Exec(acts).Some?
  {
    forall k | 0 <= k <= |acts| :: good(StateAt(acts, k).tables)
  }

  /** No action of the schedule performs such a write on the tables it finds. */
  ghost predicate Never(acts: seq<Action>, bad: (Tables, Write) -> bool)
    requires Exec(acts).Some?
  {
    forall k | 0 <= k < |acts| :: !bad(StateAt(acts, k).tables, WriteOfStep(acts, k))
  }

  /** Given the property, exactly the bad writes break it. */
  ghost predicate BrokenExactlyBy(good: Tables -> bool, bad: (Tables, Write) -> bool) {
    && good(EMPTY)
    && forall t, w | Structural(t) && good(t) :: good(Execute(t, w)) <==> !bad(t, w)
  }

  lemma StructuralAt(acts: seq<Action>, k: nat)
    requires Exec(acts).Some? && k <= |acts|
    ensures Structural(StateAt(acts, k).tables)
  {
    PrefixRuns(acts, k);
    StructureSurvivesInterleaving(acts[..k]);
  }

  /** One step: the property survives if and only if the write is not a bad one. */
  lemma BrokenAt(acts: seq<Action>, k: nat, good: Tables -> bool, bad: (Tables, Write) -> bool)
    requires Exec(acts).Some? && k < |acts| && BrokenExactlyBy(good, bad)
    requires good(StateAt(acts, k).tables)
    ensures good(StateAt(acts, k + 1).tables) <==> !bad(StateAt(acts, k).tables, WriteOfStep(acts, k))
  {
    StructuralAt(acts, k);
    StepWrites(acts, k);
  }

  lemma {:induction false} GoodUpTo(acts: seq<Action>, k: nat, good: Tables -> bool, bad: (Tables, Write) -> bool)
    requires Exec(acts).Some? && k <= |acts| && BrokenExactlyBy(good, bad) && Never(acts, bad)
    ensures good(StateAt(acts, k).tables)
  {
    if k > 0 {
      GoodUpTo(acts, k - 1, good, bad);
      BrokenAt(acts, k - 1, good, bad);
    }
  }

  /** A schedule keeps the property throughout if and only if it performs no write that breaks it. */
  lemma AlwaysIffNever(acts: seq<Action>, good: Tables -> bool, bad: (Tables, Write) -> bool)
    requires Exec(acts).Some? && BrokenExactlyBy(good, bad)
    ensures Always(acts, good) <==> Never(acts, bad)
  {
    if Never(acts, bad) {
      forall k | 0 <= k <= |acts| ensures good(StateAt(acts, k).tables) { GoodUpTo(acts, k, good, bad); }
    }
    if Always(acts, good) {
      forall k | 0 <= k < |acts| ensures !bad(StateAt(acts, k).tables, WriteOfStep(acts, k)) {
        BrokenAt(acts, k, good, bad);
        assert good(StateAt(acts, k + 1).tables);
      }
    }
  }

  // ------------------------------------------------------------ one property at a time

  lemma OneLiveBrokenBy()
    ensures BrokenExactlyBy(OneLive, InsertsForFriends)
  {
    forall t, w | Structural(t) && OneLive(t) { OneLiveIff(t, w); }
  }

  lemma BlockedNotFriendsBrokenBy()
    ensures BrokenExactlyBy(BlockedNotFriends, AcceptsBlocked)
  {
    forall t, w | Structural(t) && BlockedNotFriends(t) { BlockedNotFriendsIff(t, w); }
  }

  lemma BlocksSeverBrokenBy()
    ensures BrokenExactlyBy(BlocksSever, InsertsForBlocked)
  {
    forall t, w | Structural(t) && BlocksSever(t) { BlocksSeverIff(t, w); }
  }

  lemma ConsistentBrokenBy()
    ensures BrokenExactlyBy(Consistent, StaleInsert)
  {
    EmptyIsConsistent();
    forall t, w | Structural(t) && Consistent(t) { WriteKeepsConsistencyIff(t, w); }
  }

  /** A pair has at most one live request throughout iff no INSERT finds the pair friends. */
  lemma OneLiveThroughoutIff(acts: seq<Action>)
    requires Exec(acts).Some?
    ensures Always(acts, OneLive) <==> Never(acts, InsertsForFriends)
  {
    OneLiveBrokenBy();
    AlwaysIffNever(acts, OneLive, InsertsForFriends);
  }

  /** Blocked pairs are not friends throughout iff nobody accepts a blocked pair's pending request. */
  lemma BlockedNotFriendsThroughoutIff(acts: seq<Action>)
    requires Exec(acts).Some?
    ensures Always(acts, BlockedNotFriends) <==> Never(acts, AcceptsBlocked)
  {
    BlockedNotFriendsBrokenBy();
    AlwaysIffNever(acts, BlockedNotFriends, AcceptsBlocked);
  }

  /** Blocked pairs have neither friendship nor live request throughout iff no INSERT finds the pair blocked. */
  lemma BlocksSeverThroughoutIff(acts: seq<Action>)
    requires Exec(acts).Some?
    ensures Always(acts, BlocksSever) <==> Never(acts, InsertsForBlocked)
  {
    BlocksSeverBrokenBy();
    AlwaysIffNever(acts, BlocksSever, InsertsForBlocked);
  }

  /** Everything at once: consistent throughout iff no INSERT finds its pair friends or blocked. */
  lemma ConsistentIffNoStaleInsert(acts: seq<Action>)
    requires Exec(acts).Some?
    ensures Always(acts, Consistent) <==> Never(acts, StaleInsert)
  {
    ConsistentBrokenBy();
    AlwaysIffNever(acts, Consistent, StaleInsert);
  }

  /** A blocked pair's request can only be accepted after an INSERT that found the pair blocked. */
  lemma BlockedAcceptNeedsStaleInsert(acts: seq<Action>)
    requires Exec(acts).Some? && Never(acts, InsertsForBlocked)
    ensures Never(acts, AcceptsBlocked)
  {
    BlocksSeverThroughoutIff(acts);
    BlockedNotFriendsThroughoutIff(acts);
    forall k | 0 <= k <= |acts| ensures BlockedNotFriends(StateAt(acts, k).tables) {
      assert BlocksSever(StateAt(acts, k).tables);
    }
  }

  // ------------------------------------------------------- what every request went through

  /** The thread's four reads, at the moments i < j < k < l, all let the request pass. */
  ghost predicate Cleared(acts: seq<Action>, thread: nat, i: nat, j: nat, k: nat, l: nat, id: Uuid, from: UserId, to: UserId)
    requires Exec(acts).Some?
  {
    && i < j < k < l
    && StepsFrom(acts, i, thread, AtFriends(id, from, to)) && (from, to) !in StateAt(acts, i).tables.friends
    && StepsFrom(acts, j, thread, AtForward(id, from, to)) && !HasPending(StateAt(acts, j).tables, from, to)
    && StepsFrom(acts, k, thread, AtReverse(id, from, to)) && !HasPending(StateAt(acts, k).tables, to, from)
    && StepsFrom(acts, l, thread, AtBlocked(id, from, to)) && !IsBlocked(StateAt(acts, l).tables, from, to)
  }

  lemma WasUnblocked(acts: seq<Action>, n: nat, thread: nat, id: Uuid, from: UserId, to: UserId) returns (k: nat, l: nat)
    requires Exec(acts).Some? && StepsFrom(acts, n, thread, AtWrite(Insert(id, from, to)))
    ensures k < l < n
    ensures StepsFrom(acts, k, thread, AtReverse(id, from, to)) && !HasPending(StateAt(acts, k).tables, to, from)
    ensures StepsFrom(acts, l, thread, AtBlocked(id, from, to)) && !IsBlocked(StateAt(acts, l).tables, from, to)
  {
    l := CameFrom(acts, n, thread);
    k := CameFrom(acts, l, thread);
  }

  lemma InsertWasCleared(acts: seq<Action>, n: nat, thread: nat, id: Uuid, from: UserId, to: UserId)
    returns (i: nat, j: nat, k: nat, l: nat)
    requires Exec(acts).Some? && StepsFrom(acts, n, thread, AtWrite(Insert(id, from, to)))
    ensures l < n && Cleared(acts, thread, i, j, k, l, id, from, to)
  {
    k, l := WasUnblocked(acts, n, thread, id, from, to);
    j := CameFrom(acts, k, thread);
    i := CameFrom(acts, j, thread);
  }

  lemma InsertAddsRequest(t: Tables, w: Write, id: Uuid)
    requires id !in t.requests && id in Execute(t, w).requests
    ensures w.Insert? && w.id == id && Execute(t, w).requests[id] == Request(w.sender, w.receiver, Pending)
    ensures !PendingBetween(t, w.sender, w.receiver)
  {
  }

  lemma PairIsKept(t: Tables, w: Write, id: Uuid)
    requires id in t.requests && id in Execute(t, w).requests
    ensures Execute(t, w).requests[id].sender == t.requests[id].sender
    ensures Execute(t, w).requests[id].receiver == t.requests[id].receiver
  {
  }

  /**
   In every schedule, whoever inserted a request had found, one after the other, the
   two not friends, nothing pending either way, and no block; and nothing was pending
   between them at the INSERT itself.
   */
  lemma RequestsWereCleared(acts: seq<Action>, id: Uuid)
    returns (thread: nat, i: nat, j: nat, k: nat, l: nat, n: nat)
    requires Exec(acts).Some? && id in Exec(acts).value.tables.requests
    ensures var q := Exec(acts).value.tables.requests[id];
      && l < n && StepsFrom(acts, n, thread, AtWrite(Insert(id, q.sender, q.receiver)))
      && Cleared(acts, thread, i, j, k, l, id, q.sender, q.receiver)
      && !PendingBetween(StateAt(acts, n).tables, q.sender, q.receiver)
  {
    n, thread := RequestWasInserted(acts, id);
    var q := Exec(acts).value.tables.requests[id];
    i, j, k, l := InsertWasCleared(acts, n, thread, id, q.sender, q.receiver);
  }

  lemma {:induction false} RequestWasInserted(acts: seq<Action>, id: Uuid) returns (n: nat, thread: nat)
    requires Exec(acts).Some? && id in Exec(acts).value.tables.requests
    ensures var q := Exec(acts).value.tables.requests[id];
      StepsFrom(acts, n, thread, AtWrite(Insert(id, q.sender, q.receiver)))
      && !PendingBetween(StateAt(acts, n).tables, q.sender, q.receiver)
  {
    var last := |acts| - 1;
    FrontState(acts, last);
    StateAtEnd(acts[..last]);
    StateAtEnd(acts);
    StepWrites(acts, last);
    var t, w := StateAt(acts, last).tables, WriteOfStep(acts, last);
    if id in t.requests {
      PairIsKept(t, w, id);
      n, thread := RequestWasInserted(acts[..last], id);
      FrontState(acts, n);
    } else {
      InsertAddsRequest(t, w, id);
      n, thread := last, acts[last].thread;
    }
  }

  // ------------------------------------------------------- schedules that break them

  lemma GoodAtEnd(acts: seq<Action>, good: Tables -> bool)
    requires Exec(acts).Some? && Always(acts, good)
    ensures good(Exec(acts).value.tables)
  {
    StateAtEnd(acts);
    assert good(StateAt(acts, |acts|).tables);
  }

  /** Whatever schedule ends without the property, one of its writes broke it. */
  lemma SomeWriteBroke(s: Shared, good: Tables -> bool, bad: (Tables, Write) -> bool)
    requires BrokenExactlyBy(good, bad) && !good(s.tables)
    ensures forall acts | Exec(acts) == Some(s) :: !Never(acts, bad)
  {
    forall acts | Exec(acts) == Some(s) ensures !Never(acts, bad) {
      AlwaysIffNever(acts, good, bad);
      if Always(acts, good) { GoodAtEnd(acts, good); }
    }
  }

  /** "b" blocks "a" between a's checks and a's INSERT. */
  lemma InsertPendingWhileBlocked() returns (s: Shared)
    ensures Reachable(s) && s.threads == map[0 := AtWrite(Insert(7, "a", "b")), 1 := Finished]
    ensures s.tables == Tables({}, {("b", "a")}, map[], [])
  {
    ReachStart();
    s := ReachInsert(START, 0, 7, "a", "b");
    s := ReachWrite(s, 1, Block("b", "a"), BlockPair("b", "a"));
  }

  /** The INSERT commits: the request stands although the pair is blocked. */
  lemma RequestWhileBlocked() returns (s: Shared)
    ensures Reachable(s) && s.threads.Keys == {0, 1}
    ensures s.tables == Tables({}, {("b", "a")}, map[7 := Request("a", "b", Pending)], [])
    ensures !BlockedNotLive(s.tables) && BlockedNotFriends(s.tables) && OneLive(s.tables)
    ensures forall acts | Exec(acts) == Some(s) :: !Never(acts, InsertsForBlocked)
  {
    s := InsertPendingWhileBlocked();
    s := ReachThreadWrite(s, 0);
    assert s.tables.requests[7] == Request("a", "b", Pending);
    BlocksSeverBrokenBy();
    SomeWriteBroke(s, BlocksSever, InsertsForBlocked);
  }

  /** Then "b" accepts, and the two end up friends while blocked. */
  lemma FriendsWhileBlocked() returns (s: Shared)
    ensures Reachable(s) && AreFriends(s.tables, "a", "b") && IsBlocked(s.tables, "a", "b")
    ensures forall acts | Exec(acts) == Some(s) :: !Never(acts, AcceptsBlocked)
  {
    s := RequestWhileBlocked();
    s := ReachWrite(s, 2, Accept(7, "b"), MarkAccepted(7, "b"));
    BlockedNotFriendsBrokenBy();
    SomeWriteBroke(s, BlockedNotFriends, AcceptsBlocked);
  }

  /** Both directions checked before the first INSERT commits: requests 7 and 8 of one pair, 7 accepted at once. */
  lemma SecondInsertPending() returns (s: Shared)
    ensures Reachable(s) && 1 in s.threads && s.threads[1] == AtWrite(Insert(8, "a", "b"))
    ensures s.tables.requests == map[7 := Request("a", "b", Accepted)]
  {
    ReachStart();
    s := ReachInsert(START, 0, 7, "a", "b");
    s := ReachInsert(s, 1, 8, "a", "b");
    s := ReachThreadWrite(s, 0);
    assert s.tables.requests == map[7 := Request("a", "b", Pending)];
    s := ReachWrite(s, 2, Accept(7, "b"), MarkAccepted(7, "b"));
  }

  /**
   Two concurrent requests of the same pair, the first one accepted before the
   second one's INSERT, leave an accepted and a pending one.
   */
  lemma TwoLiveRequests() returns (s: Shared)
    ensures Reachable(s) && !OneLive(s.tables)
    ensures forall acts | Exec(acts) == Some(s) :: !Never(acts, InsertsForFriends)
  {
    s := SecondInsertPending();
    s := ReachThreadWrite(s, 1);
    assert s.tables.requests[7] == Request("a", "b", Accepted) && s.tables.requests[8] == Request("a", "b", Pending);
    assert SamePair(s.tables.requests[7], s.tables.requests[8]);
    OneLiveBrokenBy();
    SomeWriteBroke(s, OneLive, InsertsForFriends);
  }
}
