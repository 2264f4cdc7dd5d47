/**
 Direct messages when statements interleave: what is still true of every stored
 row, and exactly when it was stored among unblocked mutual friends.
 */
module StaleMessages {
  import opened Common
  import opened Store
  import opened StoreInvariants
  import opened Interleaving
  import opened StaleReads
  import Text

  ghost predicate PassesBlockCheck(acts: seq<Action>, i: nat, thread: nat, m: Message)
    requires Exec(acts).Some?
  {
    StepsFrom(acts, i, thread, AtBlockCheck(m)) && !IsBlocked(StateAt(acts, i).tables, m.sender, m.receiver)
  }

  ghost predicate PassesFriendCheck(acts: seq<Action>, j: nat, thread: nat, m: Message)
    requires Exec(acts).Some?
  {
    StepsFrom(acts, j, thread, AtFriendCheck(m)) && AreFriends(StateAt(acts, j).tables, m.sender, m.receiver)
  }

  /** The thread found no block at moment i, friendship at the later moment j, and inserted the row at k. */
  ghost predicate StoredBy(acts: seq<Action>, thread: nat, i: nat, j: nat, k: nat, m: Message)
    requires Exec(acts).Some?
  {
    && i < j < k && !m.isGroup
    && PassesBlockCheck(acts, i, thread, m) && PassesFriendCheck(acts, j, thread, m)
    && StepsFrom(acts, k, thread, AtWrite(Append(m))) && !HasMessage(StateAt(acts, k).tables, m.id)
  }

  // ---------------------------------------------------------------- looking back

  /** A thread about to insert a direct row has been through both checks, the block check first. */
  lemma InsertWasChecked(acts: seq<Action>, k: nat, thread: nat, m: Message) returns (i: nat, j: nat)
    requires Exec(acts).Some? && StepsFrom(acts, k, thread, AtWrite(Append(m))) && !m.isGroup
    ensures i < j < k && PassesBlockCheck(acts, i, thread, m) && PassesFriendCheck(acts, j, thread, m)
  {
    j := CameFrom(acts, k, thread);
    i := CameFrom(acts, j, thread);
  }

  lemma AppendAddsRow(t: Tables, w: Write, m: Message)
    requires m !in t.messages && m in Execute(t, w).messages
    ensures w == Append(m) && !HasMessage(t, m.id)
  {
  }

  /** Some action of the schedule inserted the row. */
  lemma {:induction false} RowWasInserted(acts: seq<Action>, m: Message) returns (k: nat, thread: nat)
    requires Exec(acts).Some? && m in Exec(acts).value.tables.messages
    ensures StepsFrom(acts, k, thread, AtWrite(Append(m))) && !HasMessage(StateAt(acts, k).tables, m.id)
  {
    var n := |acts| - 1;
    FrontState(acts, n);
    StateAtEnd(acts[..n]);
    if m in Exec(acts[..n]).value.tables.messages {
      k, thread := RowWasInserted(acts[..n], m);
      FrontState(acts, k);
    } else {
      k, thread := n, acts[n].thread;
      StateAtEnd(acts);
      StepWrites(acts, n);
      AppendAddsRow(StateAt(acts, n).tables, WriteOfStep(acts, n), m);
    }
  }

  /**
   In every schedule, however statements interleave, whoever inserted a direct
   row had found no block between its users, and friendship at a later moment.
   */
  lemma RowsWereChecked(acts: seq<Action>, m: Message) returns (thread: nat, i: nat, j: nat, k: nat)
    requires Exec(acts).Some? && m in Exec(acts).value.tables.messages && !m.isGroup
    ensures StoredBy(acts, thread, i, j, k, m)
  {
    k, thread := RowWasInserted(acts, m);
    i, j := InsertWasChecked(acts, k, thread, m);
  }

  // ---------------------------------------------------------------- when a row is sound

  predicate BlocksUsersOf(w: Write, m: Message) {
    w.BlockPair? && w.user != w.target
    && ((w.user == m.sender && w.target == m.receiver) || (w.user == m.receiver && w.target == m.sender))
  }

  /** Only a block between the two users takes away what the checks found. */
  lemma WriteKeepsClear(t: Tables, w: Write, m: Message)
    requires !BlocksUsersOf(w, m)
    ensures !IsBlocked(t, m.sender, m.receiver) ==> !IsBlocked(Execute(t, w), m.sender, m.receiver)
    ensures AreFriends(t, m.sender, m.receiver) ==> AreFriends(Execute(t, w), m.sender, m.receiver)
  {
  }

  lemma {:induction false} StaysClear(acts: seq<Action>, i: nat, k: nat, m: Message)
    requires Exec(acts).Some? && i <= k <= |acts|
    requires forall l | i <= l < k :: !BlocksUsersOf(WriteOfStep(acts, l), m)
    ensures !IsBlocked(StateAt(acts, i).tables, m.sender, m.receiver) ==>
      !IsBlocked(StateAt(acts, k).tables, m.sender, m.receiver)
    ensures AreFriends(StateAt(acts, i).tables, m.sender, m.receiver) ==>
      AreFriends(StateAt(acts, k).tables, m.sender, m.receiver)
  {
    if i < k {
      StaysClear(acts, i, k - 1, m);
      StepWrites(acts, k - 1);
      WriteKeepsClear(StateAt(acts, k - 1).tables, WriteOfStep(acts, k - 1), m);
    }
  }

  /** On structurally sound tables the two checks mean: distinct, mutual friends, not blocked. */
  lemma ChecksMeanFriends(t: Tables, m: Message)
    requires Structural(t) && !HasMessage(t, m.id)
    ensures AmongFriends(t, m) <==> !IsBlocked(t, m.sender, m.receiver) && AreFriends(t, m.sender, m.receiver)
  {
    FriendshipIsMutual(t);
  }

  /** A row is stored among unblocked mutual friends if no block of its pair commits between block check and INSERT. */
  lemma SoundWithoutBlock(acts: seq<Action>, thread: nat, i: nat, j: nat, k: nat, m: Message)
    requires Exec(acts).Some? && StoredBy(acts, thread, i, j, k, m)
    requires forall l | i <= l < k :: !BlocksUsersOf(WriteOfStep(acts, l), m)
    ensures AmongFriends(StateAt(acts, k).tables, m)
  {
    StaysClear(acts, i, k, m);
    StaysClear(acts, j, k, m);
    StructuralAt(acts, k);
    ChecksMeanFriends(StateAt(acts, k).tables, m);
  }

  /** An INSERT of a direct row whose two checks, asked again now, would not both pass. */
  predicate AppendsStale(t: Tables, w: Write) {
    && w.Append? && !w.m.isGroup && !HasMessage(t, w.m.id)
    && (IsBlocked(t, w.m.sender, w.m.receiver) || !AreFriends(t, w.m.sender, w.m.receiver))
  }

  /** Every direct row of the schedule was inserted among distinct, unblocked, mutual friends. */
  ghost predicate RowsAmongFriends(acts: seq<Action>)
    requires Exec(acts).Some?
  {
    forall thread, i, j, k, m | StoredBy(acts, thread, i, j, k, m) :: AmongFriends(StateAt(acts, k).tables, m)
  }

  /** That holds if and only if the checks, repeated at each INSERT of a direct row, would pass. */
  lemma RowsAmongFriendsIff(acts: seq<Action>)
    requires Exec(acts).Some?
    ensures RowsAmongFriends(acts) <==> Never(acts, AppendsStale)
  {
    forall thread, i, j, k, m | StoredBy(acts, thread, i, j, k, m)
      ensures AmongFriends(StateAt(acts, k).tables, m) <==> !AppendsStale(StateAt(acts, k).tables, WriteOfStep(acts, k))
    {
      StructuralAt(acts, k);
      ChecksMeanFriends(StateAt(acts, k).tables, m);
    }
    forall k | 0 <= k < |acts| && AppendsStale(StateAt(acts, k).tables, WriteOfStep(acts, k))
      ensures !RowsAmongFriends(acts)
    {
      var m, thread := WriteOfStep(acts, k).m, acts[k].thread;
      var i, j := InsertWasChecked(acts, k, thread, m);
      assert StoredBy(acts, thread, i, j, k, m);
    }
  }

  /** "b" blocks "a" after the checks of a's message, which then stands before a stale INSERT; the row is stored. */
  lemma MessageStoredWhileBlocked(text: string) returns (before: Shared, s: Shared, m: Message)
    requires Text.TrimSpace(text) != ""
    ensures Reachable(before) && 2 in before.threads && before.threads[2] == AtWrite(Append(m))
    ensures AppendsStale(before.tables, Append(m))
    ensures Reachable(s) && s == Take(before, Step(2)) && s.tables.messages == [m]
    ensures IsBlocked(s.tables, m.sender, m.receiver) && !AreFriends(s.tables, m.sender, m.receiver)
  {
    before := ReachFriends();
    m := Message(1, "a", "b", Text.TrimSpace(text), false, 0);
    before := ReachCheckedMessage(before, 2, text, m);
    before := ReachWrite(before, 3, Block("b", "a"), BlockPair("b", "a"));
    s := ReachThreadWrite(before, 2);
  }
}
