/** What the tables always satisfy, statement by statement and service call by service call. */
module StoreInvariants {
  import opened Common
  import opened Store

  ghost predicate NoSelfRequest(t: Tables) {
    forall id :: id in t.requests ==> t.requests[id].sender != t.requests[id].receiver
  }

  ghost predicate AcceptedBetween(t: Tables, a: UserId, b: UserId) {
    exists id :: id in t.requests && t.requests[id].status == Accepted && Between(t.requests[id], a, b)
  }

  /** friends is exactly the symmetric closure of the accepted requests. */
  ghost predicate FriendsAreAccepted(t: Tables) {
    forall a, b :: (a, b) in t.friends <==> AcceptedBetween(t, a, b)
  }

  ghost predicate SamePair(q: Request, r: Request) {
    Between(q, r.sender, r.receiver)
  }

  ghost predicate OnePending(t: Tables) {
    forall i, j | i in t.requests && j in t.requests && SamePair(t.requests[i], t.requests[j]) ::
      t.requests[i].status == Pending && t.requests[j].status == Pending ==> i == j
  }

  ghost predicate OneLive(t: Tables) {
    forall i, j | i in t.requests && j in t.requests && SamePair(t.requests[i], t.requests[j]) ::
      Live(t.requests[i]) && Live(t.requests[j]) ==> i == j
  }

  ghost predicate BlockedNotFriends(t: Tables) {
    forall a, b :: (a, b) in t.friends ==> !IsBlocked(t, a, b)
  }

  ghost predicate BlockedNotLive(t: Tables) {
    forall id | id in t.requests ::
      Live(t.requests[id]) ==> !IsBlocked(t, t.requests[id].sender, t.requests[id].receiver)
  }

  /** A block in either direction leaves the pair neither friends nor with a live request. */
  ghost predicate BlocksSever(t: Tables) {
    BlockedNotFriends(t) && BlockedNotLive(t)
  }

  /** Holds under every interleaving of statements. */
  ghost predicate Structural(t: Tables) {
    NoSelfRequest(t) && FriendsAreAccepted(t) && OnePending(t)
  }

  /** Holds when service calls are atomic. */
  ghost predicate Consistent(t: Tables) {
    Structural(t) && OneLive(t) && BlocksSever(t)
  }

  lemma FriendshipIsMutual(t: Tables)
    requires Structural(t)
    ensures forall a, b :: (a, b) in t.friends ==> a != b && (b, a) in t.friends
  {
    forall a, b | (a, b) in t.friends
      ensures a != b && (b, a) in t.friends
    {
      assert AcceptedBetween(t, a, b);
      var id :| id in t.requests && t.requests[id].status == Accepted && Between(t.requests[id], a, b);
      assert Between(t.requests[id], b, a);
      assert AcceptedBetween(t, b, a);
    }
  }

  /** m is new in t, and its users are distinct, mutual friends, and not blocked. */
  predicate AmongFriends(t: Tables, m: Message) {
    && !HasMessage(t, m.id)
    && m.sender != m.receiver
    && (m.sender, m.receiver) in t.friends && (m.receiver, m.sender) in t.friends
    && !IsBlocked(t, m.sender, m.receiver)
  }

  // ------------------------------------------------------------ one write

  /** Changing or removing requests that are not accepted, and adding none, keeps who is accepted. */
  lemma AcceptedUnchanged(t: Tables, t': Tables)
    requires t'.friends == t.friends && FriendsAreAccepted(t)
    requires forall id :: id in t.requests && t.requests[id].status == Accepted ==>
      id in t'.requests && t'.requests[id] == t.requests[id]
    requires forall id :: id in t'.requests && t'.requests[id].status == Accepted ==>
      id in t.requests && t.requests[id] == t'.requests[id]
    ensures FriendsAreAccepted(t')
  {
    forall a, b ensures (a, b) in t'.friends <==> AcceptedBetween(t', a, b) {
      if AcceptedBetween(t, a, b) {
        var id :| id in t.requests && t.requests[id].status == Accepted && Between(t.requests[id], a, b);
        assert id in t'.requests;
      }
      if AcceptedBetween(t', a, b) {
        var id :| id in t'.requests && t'.requests[id].status == Accepted && Between(t'.requests[id], a, b);
        assert id in t.requests;
      }
    }
  }

  lemma AcceptKeepsClosure(t: Tables, id: Uuid, user: UserId)
    requires FriendsAreAccepted(t)
    ensures FriendsAreAccepted(AcceptRequest(t, id, user).0)
  {
    var t' := AcceptRequest(t, id, user).0;
    if t' != t {
      var q := t.requests[id];
      forall a, b ensures (a, b) in t'.friends <==> AcceptedBetween(t', a, b) {
        if (a, b) in t.friends {
          var k :| k in t.requests && t.requests[k].status == Accepted && Between(t.requests[k], a, b);
          assert k in t'.requests && t'.requests[k] == t.requests[k];
        } else if (a, b) in t'.friends {
          assert id in t'.requests && t'.requests[id].status == Accepted && Between(t'.requests[id], a, b);
        }
        if AcceptedBetween(t', a, b) {
          var k :| k in t'.requests && t'.requests[k].status == Accepted && Between(t'.requests[k], a, b);
          if k != id {
            assert k in t.requests && t.requests[k] == t'.requests[k];
            assert AcceptedBetween(t, a, b);
          }
        }
      }
    }
  }

  lemma BlockKeepsClosure(t: Tables, user: UserId, target: UserId)
    requires FriendsAreAccepted(t)
    ensures FriendsAreAccepted(BlockUser(t, user, target).0)
  {
    var t' := BlockUser(t, user, target).0;
    if t' != t {
      forall a, b ensures (a, b) in t'.friends <==> AcceptedBetween(t', a, b) {
        if (a, b) in t'.friends {
          var k :| k in t.requests && t.requests[k].status == Accepted && Between(t.requests[k], a, b);
          assert k in t'.requests && t'.requests[k] == t.requests[k];
        }
        if AcceptedBetween(t', a, b) {
          var k :| k in t'.requests && t'.requests[k].status == Accepted && Between(t'.requests[k], a, b);
          assert t.requests[k] == t'.requests[k];
          assert AcceptedBetween(t, a, b);
        }
      }
    }
  }

  lemma WriteKeepsClosure(t: Tables, w: Write)
    requires FriendsAreAccepted(t)
    ensures FriendsAreAccepted(Execute(t, w))
  {
    match w
    case MarkAccepted(id, user) => AcceptKeepsClosure(t, id, user);
    case BlockPair(user, target) => BlockKeepsClosure(t, user, target);
    case _ => AcceptedUnchanged(t, Execute(t, w));
  }

  lemma InsertKeepsOnePending(t: Tables, id: Uuid, sender: UserId, receiver: UserId)
    requires OnePending(t)
    ensures OnePending(InsertRequest(t, id, sender, receiver).0)
  {
    forall k | k in t.requests && Between(t.requests[k], sender, receiver) && t.requests[k].status == Pending
      ensures PendingBetween(t, sender, receiver)
    {
      assert t.requests[k] == Request(t.requests[k].sender, t.requests[k].receiver, Pending);
    }
  }

  lemma WriteKeepsOnePending(t: Tables, w: Write)
    requires OnePending(t)
    ensures OnePending(Execute(t, w))
  {
    if w.Insert? {
      InsertKeepsOnePending(t, w.id, w.sender, w.receiver);
    } else {
      var t' := Execute(t, w);
      assert forall k | k in t'.requests && t'.requests[k].status == Pending ::
        k in t.requests && t.requests[k] == t'.requests[k];
    }
  }

  /** No write, from any state and however calls interleave, breaks the structural invariant. */
  lemma WriteKeepsStructure(t: Tables, w: Write)
    requires Structural(t)
    ensures Structural(Execute(t, w))
  {
    WriteKeepsClosure(t, w);
    WriteKeepsOnePending(t, w);
  }

  // ------------------------------------------------ which writes break which property

  /** An INSERT that passes its own guard and the table's constraints, and so adds a row. */
  predicate AddsRow(t: Tables, w: Write) {
    w.Insert? && !PendingBetween(t, w.sender, w.receiver) && w.id !in t.requests && w.sender != w.receiver
  }

  /** The pair became friends after CreateRequest looked. */
  predicate InsertsForFriends(t: Tables, w: Write) {
    AddsRow(t, w) && AreFriends(t, w.sender, w.receiver)
  }

  /** The pair was blocked after CreateRequest looked. */
  predicate InsertsForBlocked(t: Tables, w: Write) {
    AddsRow(t, w) && IsBlocked(t, w.sender, w.receiver)
  }

  /** What CreateRequest established by its reads no longer holds at the moment of the INSERT. */
  predicate StaleInsert(t: Tables, w: Write) {
    InsertsForFriends(t, w) || InsertsForBlocked(t, w)
  }

  /** The receiver accepts a pending request of a blocked pair; AcceptRequest never asks about blocks. */
  predicate AcceptsBlocked(t: Tables, w: Write) {
    && w.MarkAccepted? && w.id in t.requests
    && var q := t.requests[w.id];
      q.status == Pending && q.receiver == w.user && IsBlocked(t, q.sender, q.receiver)
  }

  /** Every live request of t' was live in t, between the same users. */
  ghost predicate NoNewLive(t: Tables, t': Tables) {
    forall id | id in t'.requests && Live(t'.requests[id]) ::
      && id in t.requests && Live(t.requests[id])
      && t'.requests[id].sender == t.requests[id].sender && t'.requests[id].receiver == t.requests[id].receiver
  }

  lemma OnlyInsertsAddLive(t: Tables, w: Write)
    requires !AddsRow(t, w)
    ensures NoNewLive(t, Execute(t, w))
  {
  }

  /** A live request shows up in one of the reads that CreateRequest makes. */
  lemma LiveIsVisible(t: Tables, k: Uuid, a: UserId, b: UserId)
    requires FriendsAreAccepted(t)
    requires k in t.requests && Live(t.requests[k]) && Between(t.requests[k], a, b)
    ensures AreFriends(t, a, b) || PendingBetween(t, a, b)
  {
    var q := t.requests[k];
    if q.status == Accepted {
      assert AcceptedBetween(t, a, b);
    } else {
      assert q == Request(q.sender, q.receiver, Pending);
      assert HasPending(t, q.sender, q.receiver);
    }
  }

  lemma AddedRowKeepsOneLiveIff(t: Tables, w: Write)
    requires Structural(t) && OneLive(t) && AddsRow(t, w)
    ensures OneLive(Execute(t, w)) <==> !AreFriends(t, w.sender, w.receiver)
  {
    var t' := Execute(t, w);
    assert t'.requests[w.id] == Request(w.sender, w.receiver, Pending);
    if AreFriends(t, w.sender, w.receiver) {
      assert AcceptedBetween(t, w.sender, w.receiver);
      var k :| k in t.requests && t.requests[k].status == Accepted && Between(t.requests[k], w.sender, w.receiver);
      assert k != w.id && t'.requests[k] == t.requests[k] && SamePair(t'.requests[k], t'.requests[w.id]);
    } else {
      forall k | k in t.requests && Live(t.requests[k]) ensures !Between(t.requests[k], w.sender, w.receiver) {
        if Between(t.requests[k], w.sender, w.receiver) { LiveIsVisible(t, k, w.sender, w.receiver); }
      }
    }
  }

  /** A write keeps one live request per pair if and only if it is not an INSERT for a pair that are friends. */
  lemma OneLiveIff(t: Tables, w: Write)
    requires Structural(t) && OneLive(t)
    ensures OneLive(Execute(t, w)) <==> !InsertsForFriends(t, w)
  {
    if AddsRow(t, w) { AddedRowKeepsOneLiveIff(t, w); } else { OnlyInsertsAddLive(t, w); }
  }

  /** Friends have an accepted request, so it is enough that no blocked pair has a live one. */
  lemma NotLiveNotFriends(t: Tables)
    requires FriendsAreAccepted(t) && BlockedNotLive(t)
    ensures BlockedNotFriends(t)
  {
    forall a, b | (a, b) in t.friends ensures !IsBlocked(t, a, b) {
      assert AcceptedBetween(t, a, b);
    }
  }

  lemma BlockKeepsSevered(t: Tables, w: Write)
    requires BlockedNotLive(t) && w.BlockPair?
    ensures BlockedNotLive(Execute(t, w))
  {
    var t' := Execute(t, w);
    forall k | k in t'.requests && Live(t'.requests[k])
      ensures !IsBlocked(t', t'.requests[k].sender, t'.requests[k].receiver)
    {
      assert t'.requests[k] == t.requests[k];
    }
  }

  /** A write keeps blocked pairs without friendship and live request iff it is not an INSERT for a blocked pair. */
  lemma BlocksSeverIff(t: Tables, w: Write)
    requires Structural(t) && BlocksSever(t)
    ensures BlocksSever(Execute(t, w)) <==> !InsertsForBlocked(t, w)
  {
    var t' := Execute(t, w);
    WriteKeepsStructure(t, w);
    if AddsRow(t, w) {
      assert t'.requests[w.id] == Request(w.sender, w.receiver, Pending);
    } else if w.BlockPair? {
      BlockKeepsSevered(t, w);
    } else {
      OnlyInsertsAddLive(t, w);
      assert t'.blocks <= t.blocks;
    }
    if BlockedNotLive(t') { NotLiveNotFriends(t'); }
  }

  /** A write keeps blocked pairs from being friends iff it does not accept a blocked pair's pending request. */
  lemma BlockedNotFriendsIff(t: Tables, w: Write)
    requires Structural(t) && BlockedNotFriends(t)
    ensures BlockedNotFriends(Execute(t, w)) <==> !AcceptsBlocked(t, w)
  {
    var t' := Execute(t, w);
    if AcceptsBlocked(t, w) {
      var q := t.requests[w.id];
      assert (q.sender, q.receiver) in t'.friends;
    } else if w.BlockPair? {
      assert forall a, b :: (a, b) in t'.friends ==> (a, b) in t.friends && !IsBlocked(t', a, b);
    }
  }

  /** From consistent tables, a write keeps everything if and only if it is not a stale INSERT. */
  lemma WriteKeepsConsistencyIff(t: Tables, w: Write)
    requires Consistent(t)
    ensures Consistent(Execute(t, w)) <==> !StaleInsert(t, w)
  {
    WriteKeepsStructure(t, w);
    OneLiveIff(t, w);
    BlocksSeverIff(t, w);
  }

  // ------------------------------------------------------- one service call

  /** The single write a service call reaches when nothing else runs between its statements. */
  function WriteOf(t: Tables, c: Call): Write {
    match c
    case Create(id, from, to) =>
      if to != "" && from != "" && from != to && !AreFriends(t, from, to)
        && !HasPending(t, from, to) && !HasPending(t, to, from) && !IsBlocked(t, to, from)
      then Insert(id, from, to) else Nothing
    case Accept(id, user) => MarkAccepted(id, user)
    case Reject(id, user) => MarkRejected(id, user)
    case Cancel(id, user) => Delete(id, user)
    case Block(user, target) => BlockPair(user, target)
    case Unblock(user, target) => UnblockPair(user, target)
    case Send(id, now, from, to, text, isGroup) =>
      var r := CreateMessage(t, id, now, from, to, text, isGroup).1;
      if r.Ok? then Append(r.value) else Nothing
  }

  lemma CreateIsOneWrite(t: Tables, id: Uuid, from: UserId, to: UserId)
    ensures Apply(t, Create(id, from, to)) == Execute(t, WriteOf(t, Create(id, from, to)))
    ensures !StaleInsert(t, WriteOf(t, Create(id, from, to)))
  {
  }

  lemma MessageIsOneWrite(t: Tables, id: Uuid, now: int, from: UserId, to: UserId, text: string, isGroup: bool)
    ensures var (t', r) := CreateMessage(t, id, now, from, to, text, isGroup);
      t' == if r.Ok? then InsertMessage(t, r.value).0 else t
  {
  }

  lemma SendIsOneWrite(t: Tables, c: Call)
    requires c.Send?
    ensures Apply(t, c) == Execute(t, WriteOf(t, c)) && !WriteOf(t, c).Insert?
  {
    MessageIsOneWrite(t, c.id, c.now, c.from, c.to, c.text, c.isGroup);
  }

  lemma CallIsOneWrite(t: Tables, c: Call)
    ensures Apply(t, c) == Execute(t, WriteOf(t, c))
    ensures !StaleInsert(t, WriteOf(t, c))
  {
    match c
    case Create(id, from, to) => CreateIsOneWrite(t, id, from, to);
    case Send(_, _, _, _, _, _) => SendIsOneWrite(t, c);
    case _ =>
  }

  /** Every sequence of atomic service calls from empty tables leaves them consistent. */
  lemma {:induction false} CallsKeepConsistency(calls: seq<Call>)
    ensures Consistent(ApplyAll(EMPTY, calls))
  {
    if calls == [] {
      assert forall a, b :: !AcceptedBetween(EMPTY, a, b);
    } else {
      var t := ApplyAll(EMPTY, calls[..|calls| - 1]);
      var c := calls[|calls| - 1];
      CallsKeepConsistency(calls[..|calls| - 1]);
      CallIsOneWrite(t, c);
      WriteKeepsConsistencyIff(t, WriteOf(t, c));
    }
  }

  /**
   A message is stored exactly when the body is not blank, the id is new and,
   for a direct message, the two users are friends and not blocked. The row
   carries the trimmed text, and nothing else in the tables changes.
   */
  lemma MessageStoredIff(t: Tables, id: Uuid, now: int, sender: UserId, receiver: UserId, text: string)
    requires Consistent(t)
    ensures var (t', r) := CreateMessage(t, id, now, sender, receiver, text, false);
      && (r.Ok? <==>
          && sender != "" && receiver != "" && Text.TrimSpace(text) != [] && !HasMessage(t, id)
          && AreFriends(t, sender, receiver))
      && (r.Ok? ==> t' == t.(messages := t.messages + [r.value]))
      && (r.Ok? ==> r.value == Message(id, sender, receiver, Text.TrimSpace(text), false, now))
      && (r.Err? ==> t' == t)
  {
    if AreFriends(t, sender, receiver) {
      FriendshipIsMutual(t);
      assert !IsBlocked(t, sender, receiver);
    }
  }

  /**
   A request call succeeds exactly when the two users differ, neither has blocked
   the other and no request between them is live; it then adds one pending row.
   */
  lemma RequestCreatedIff(t: Tables, id: Uuid, from: UserId, to: UserId)
    requires Consistent(t) && id !in t.requests && from != "" && to != ""
    ensures CreateRequest(t, id, from, to).1 == None <==>
      && from != to && !IsBlocked(t, from, to)
      && forall k | k in t.requests :: Live(t.requests[k]) ==> !Between(t.requests[k], from, to)
    ensures CreateRequest(t, id, from, to).0 ==
      if CreateRequest(t, id, from, to).1 == None
      then t.(requests := t.requests[id := Request(from, to, Pending)]) else t
  {
    if k :| k in t.requests && Live(t.requests[k]) && Between(t.requests[k], from, to) {
      LiveIsVisible(t, k, from, to);
    } else {
      NoLiveNoReads(t, from, to);
    }
  }

  lemma NoLiveNoReads(t: Tables, a: UserId, b: UserId)
    requires FriendsAreAccepted(t)
    requires forall k | k in t.requests :: Live(t.requests[k]) ==> !Between(t.requests[k], a, b)
    ensures !AreFriends(t, a, b) && !PendingBetween(t, a, b)
  {
    assert AreFriends(t, a, b) <==> AcceptedBetween(t, a, b);
  }

  /** Cancelling a request right after it was made restores the tables. */
  lemma CancelUndoesCreate(t: Tables, id: Uuid, from: UserId, to: UserId)
    requires Consistent(t) && id !in t.requests && CreateRequest(t, id, from, to).1 == None
    ensures CancelRequest(CreateRequest(t, id, from, to).0, id, from) == (t, None)
  {
    assert t.requests[id := Request(from, to, Pending)] - {id} == t.requests;
  }

  lemma BlockedThenUnblocked(t: Tables, user: UserId, target: UserId)
    requires user != target
    ensures var t' := UnblockUser(BlockUser(t, user, target).0, user, target).0;
      && t'.blocks == t.blocks - {(user, target)}
      && t'.friends == t.friends - {(user, target), (target, user)}
      && t'.requests.Keys == t.requests.Keys
      && (forall k | k in t.requests ::
            t'.requests[k] == if Between(t.requests[k], user, target) then t.requests[k].(status := Blocked) else t.requests[k])
  {
  }

  /**
   Unblocking does not undo a block: the friendship and the pair's requests stay
   gone, and the pair may start again if and only if no block is left.
   */
  lemma UnblockDoesNotRestore(t: Tables, user: UserId, target: UserId, id: Uuid)
    requires Consistent(t) && user != target && user != "" && target != "" && id !in t.requests
    ensures var t' := UnblockUser(BlockUser(t, user, target).0, user, target).0;
      && !AreFriends(t', user, target) && !AreFriends(t', target, user)
      && (forall k | k in t.requests && Between(t.requests[k], user, target) ::
           k in t'.requests && t'.requests[k] == t.requests[k].(status := Blocked))
      && t'.blocks == t.blocks - {(user, target)}
      && (CreateRequest(t', id, user, target).1 == None <==> (target, user) !in t.blocks)
  {
    var t1 := BlockUser(t, user, target).0;
    var t' := UnblockUser(t1, user, target).0;
    WriteKeepsConsistencyIff(t, BlockPair(user, target));
    WriteKeepsConsistencyIff(t1, UnblockPair(user, target));
    BlockedThenUnblocked(t, user, target);
    RequestCreatedIff(t', id, user, target);
  }
}
