/** What each call answers, in terms of the rows it finds; and what a given answer says about the tables afterwards. */
module Answers {
  import opened Common
  import opened Store
  import Text

  ghost predicate IsPending(t: Tables, id: Uuid) {
    id in t.requests && t.requests[id].status == Pending
  }

  /** Everything but the one row is as before. */
  ghost predicate OnlyRow(t: Tables, t': Tables, id: Uuid) {
    && t'.blocks == t.blocks && t'.messages == t.messages
    && (forall k :: k != id ==> (k in t'.requests <==> k in t.requests))
    && (forall k | k in t.requests && k != id :: t'.requests[k] == t.requests[k])
  }

  /**
   Accepting succeeds exactly for the receiver of a pending request between two
   users; then the request is accepted and the two are friends, both ways, and
   no other row changes. Otherwise nothing changes, and the answer tells why.
   */
  lemma AcceptAnswers(t: Tables, id: Uuid, user: UserId)
    ensures var (t', err) := AcceptRequest(t, id, user);
      && (err == None <==> IsPending(t, id) && t.requests[id].receiver == user && t.requests[id].sender != user)
      && (err == None ==>
            && OnlyRow(t, t', id) && id in t'.requests
            && t'.requests[id] == Request(t.requests[id].sender, user, Accepted)
            && var sender := t.requests[id].sender;
              forall a, b :: (a, b) in t'.friends <==>
                ((a, b) in t.friends || (a == sender && b == user) || (a == user && b == sender)))
      && (err == Some(ConstraintViolation) <==>
            IsPending(t, id) && t.requests[id].receiver == user && t.requests[id].sender == user)
      && (err == Some(RequestNotFound) <==> !IsPending(t, id) || t.requests[id].receiver != user)
      && (err != None ==> t' == t)
  {
  }

  /** Rejecting succeeds exactly for the receiver of a pending request. */
  lemma RejectAnswers(t: Tables, id: Uuid, user: UserId)
    ensures var (t', err) := RejectRequest(t, id, user);
      && (err == None <==> IsPending(t, id) && t.requests[id].receiver == user)
      && (err == None ==>
            && OnlyRow(t, t', id) && t'.friends == t.friends && id in t'.requests
            && t'.requests[id] == Request(t.requests[id].sender, user, Rejected))
      && (err != None ==> err == Some(RequestNotFound) && t' == t)
  {
  }

  /** Cancelling succeeds exactly for the sender of a pending request, which is then gone. */
  lemma CancelAnswers(t: Tables, id: Uuid, user: UserId)
    ensures var (t', err) := CancelRequest(t, id, user);
      && (err == None <==> IsPending(t, id) && t.requests[id].sender == user)
      && (err == None ==> OnlyRow(t, t', id) && t'.friends == t.friends && id !in t'.requests)
      && (err != None ==> err == Some(RequestNotFound) && t' == t)
  {
  }

  ghost predicate PairOf(q: Request, a: UserId, b: UserId) {
    {q.sender, q.receiver} == {a, b}
  }

  /**
   Blocking succeeds exactly for somebody else. It adds that one block, ends the
   friendship both ways, and marks exactly the requests between the two.
   */
  lemma BlockAnswers(t: Tables, user: UserId, target: UserId)
    ensures var (t', err) := BlockUser(t, user, target);
      && (err == None <==> user != target)
      && (err == None ==>
            && t'.messages == t.messages && t'.requests.Keys == t.requests.Keys
            && (forall a, b :: (a, b) in t'.blocks <==> (a, b) in t.blocks || (a == user && b == target))
            && (forall a, b :: (a, b) in t'.friends <==> (a, b) in t.friends && {a, b} != {user, target})
            && (forall k | k in t.requests :: PairOf(t.requests[k], user, target) ==>
                 t'.requests[k] == Request(t.requests[k].sender, t.requests[k].receiver, Blocked))
            && (forall k | k in t.requests :: !PairOf(t.requests[k], user, target) ==> t'.requests[k] == t.requests[k]))
      && (err != None ==> err == Some(SelfAction) && t' == t)
  {
    if user != target {
      var t' := BlockUser(t, user, target).0;
      forall a, b ensures {a, b} == {user, target} <==> (a == user && b == target) || (a == target && b == user) {
        assert a in {a, b} && b in {a, b} && user in {user, target} && target in {user, target};
      }
    }
  }

  /** Unblocking succeeds exactly for whoever has blocked the target, and takes back that one block. */
  lemma UnblockAnswers(t: Tables, user: UserId, target: UserId)
    ensures var (t', err) := UnblockUser(t, user, target);
      && (err == None <==> (user, target) in t.blocks)
      && (err == None ==>
            && t'.friends == t.friends && t'.requests == t.requests && t'.messages == t.messages
            && forall a, b :: (a, b) in t'.blocks <==> (a, b) in t.blocks && !(a == user && b == target))
      && (err != None ==> err == Some(BlockNotFound) && t' == t)
  {
  }

  // ------------------------------------------------------------------ checked calls

  /** A pending request row between the two, whoever sent it. */
  ghost predicate AnyPending(t: Tables, a: UserId, b: UserId) {
    exists id :: IsPending(t, id) && PairOf(t.requests[id], a, b)
  }

  ghost predicate EitherBlocked(t: Tables, a: UserId, b: UserId) {
    (a, b) in t.blocks || (b, a) in t.blocks
  }

  lemma PendingIsEither(t: Tables, a: UserId, b: UserId)
    ensures AnyPending(t, a, b) <==> HasPending(t, a, b) || HasPending(t, b, a)
  {
    if AnyPending(t, a, b) {
      var id :| IsPending(t, id) && PairOf(t.requests[id], a, b);
      var q := t.requests[id];
      assert q.sender in {a, b} && q.receiver in {a, b} && a in {q.sender, q.receiver} && b in {q.sender, q.receiver};
      assert q == Request(q.sender, q.receiver, Pending);
    }
    if HasPending(t, a, b) {
      var id :| id in t.requests && t.requests[id] == Request(a, b, Pending);
      assert IsPending(t, id) && PairOf(t.requests[id], a, b);
    }
    if HasPending(t, b, a) {
      var id :| id in t.requests && t.requests[id] == Request(b, a, Pending);
      assert {b, a} == {a, b};
      assert IsPending(t, id) && PairOf(t.requests[id], a, b);
    }
  }

  /**
   The INSERT on its own, as it runs among other statements: with a pending request
   between the two it does nothing and says nothing; a taken id or a request to
   oneself is refused by the table; otherwise exactly the one pending row is added.
   */
  lemma InsertAnswers(t: Tables, id: Uuid, from: UserId, to: UserId)
    ensures var (t', err) := InsertRequest(t, id, from, to);
      && (AnyPending(t, from, to) ==> t' == t && err == None)
      && (err == Some(ConstraintViolation) <==> !AnyPending(t, from, to) && (id in t.requests || from == to))
      && (err == None && !AnyPending(t, from, to) ==>
            && OnlyRow(t, t', id) && t'.friends == t.friends && id in t'.requests
            && t'.requests[id] == Request(from, to, Pending))
      && (err != None ==> err == Some(ConstraintViolation) && t' == t)
  {
    PendingIsEither(t, from, to);
  }

  /** The answer to a friend request, in the order in which the service asks. */
  lemma CreateRequestAnswers(t: Tables, id: Uuid, from: UserId, to: UserId)
    ensures var (t', err) := CreateRequest(t, id, from, to);
      && (err == Some(NotFound) <==> to == "")
      && (err == Some(Unauthorized) <==> to != "" && from == "")
      && (err == Some(SelfAction) <==> to != "" && from == to)
      && (err == Some(AlreadyFriends) <==> from != "" && to != "" && from != to && (from, to) in t.friends)
      && (err == Some(Conflict) <==>
            from != "" && to != "" && from != to && (from, to) !in t.friends && AnyPending(t, from, to))
      && (err == Some(BlockedRelationship) <==>
            && from != "" && to != "" && from != to && (from, to) !in t.friends && !AnyPending(t, from, to)
            && EitherBlocked(t, from, to))
      && (err == Some(ConstraintViolation) <==>
            && from != "" && to != "" && from != to && (from, to) !in t.friends && !AnyPending(t, from, to)
            && !EitherBlocked(t, from, to) && id in t.requests)
      && (err != None ==> t' == t)
      && (err == None ==>
            && OnlyRow(t, t', id) && t'.friends == t.friends && id !in t.requests
            && id in t'.requests && t'.requests[id] == Request(from, to, Pending))
  {
    PendingIsEither(t, from, to);
  }

  /** The answer to a message, direct or to a group, in the order in which the service asks. */
  lemma CreateMessageAnswers(
    t: Tables, id: Uuid, now: int, sender: UserId, receiver: UserId, text: string, isGroup: bool)
    ensures var (t', r) := CreateMessage(t, id, now, sender, receiver, text, isGroup);
      var valid := sender != "" && receiver != "" && Text.TrimSpace(text) != "";
      var taken := exists m :: m in t.messages && m.id == id;
      && (r == Err(BadRequest) <==> !valid)
      && (r == Err(BlockedRelationship) <==> valid && !isGroup && EitherBlocked(t, sender, receiver))
      && (r == Err(Forbidden) <==>
            valid && !isGroup && !EitherBlocked(t, sender, receiver) && (sender, receiver) !in t.friends)
      && (r == Err(ConstraintViolation) <==>
            && valid && taken
            && (isGroup || (!EitherBlocked(t, sender, receiver) && (sender, receiver) in t.friends)))
      && (r.Ok? <==>
            && valid && !taken
            && (isGroup || (!EitherBlocked(t, sender, receiver) && (sender, receiver) in t.friends)))
      && (r.Err? ==> t' == t)
      && (r.Ok? ==>
            && t' == t.(messages := t.messages + [r.value])
            && r.value == Message(id, sender, receiver, Text.TrimSpace(text), isGroup, now))
  {
    TakenIff(t, id);
  }

  lemma TakenIff(t: Tables, id: Uuid)
    ensures HasMessage(t, id) <==> exists m :: m in t.messages && m.id == id
  {
    if HasMessage(t, id) {
      var i :| 0 <= i < |t.messages| && t.messages[i].id == id;
      assert t.messages[i] in t.messages;
    }
  }
}
