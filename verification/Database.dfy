/** The repositories and services as they run: one object holding the tables, updated in place. */
module Database {
  import opened Common
  import Text
  import S = Store

  /** Those of the rows `ids` that match get the new status. */
  function Updated(rows: map<Uuid, S.Request>, ids: set<Uuid>, status: S.Status, where: (Uuid, S.Request) -> bool)
    : map<Uuid, S.Request>
  {
    map id | id in rows :: if id in ids && where(id, rows[id]) then rows[id].(status := status) else rows[id]
  }

  lemma UpdatedOne(rows: map<Uuid, S.Request>, ids: set<Uuid>, status: S.Status, where: (Uuid, S.Request) -> bool, id: Uuid)
    requires id in rows && id !in ids
    ensures var before := Updated(rows, ids, status, where);
      && before[id] == rows[id]
      && Updated(rows, ids + {id}, status, where) ==
           if where(id, rows[id]) then before[id := rows[id].(status := status)] else before
  {
  }

  class Database {
    var friends: set<(UserId, UserId)>
    var blocks: set<(UserId, UserId)>
    var requests: map<Uuid, S.Request>
    var messages: seq<S.Message>

    function Tables(): S.Tables
      reads this
    {
      S.Tables(friends, blocks, requests, messages)
    }

    constructor ()
      ensures Tables() == S.EMPTY
    {
      friends, blocks, requests, messages := {}, {}, map[], [];
    }

    // ------------------------------------------------------------- queries

    method IsBlocked(a: UserId, b: UserId) returns (exist: bool)
      ensures exist <==> S.IsBlocked(Tables(), a, b)
    {
      exist := (a, b) in blocks || (b, a) in blocks;
    }

    method AreFriends(a: UserId, b: UserId) returns (exist: bool)
      ensures exist <==> S.AreFriends(Tables(), a, b)
    {
      exist := (a, b) in friends;
    }

    /** A pending row of that sender and receiver, if there is one. */
    method GetPendingRequest(sender: UserId, receiver: UserId) returns (row: Option<Uuid>)
      ensures row.Some? <==> S.HasPending(Tables(), sender, receiver)
      ensures row.Some? ==> row.value in requests && requests[row.value] == S.Request(sender, receiver, S.Pending)
    {
      if id :| id in requests && requests[id] == S.Request(sender, receiver, S.Pending) {
        row := Some(id);
      } else {
        row := None;
      }
    }

    // ---------------------------------------------- statements and transactions

    method InsertRequest(id: Uuid, sender: UserId, receiver: UserId) returns (err: Option<Error>)
      modifies this`requests
      ensures (Tables(), err) == S.InsertRequest(old(Tables()), id, sender, receiver)
    {
      var there := GetPendingRequest(sender, receiver);
      var back := GetPendingRequest(receiver, sender);
      if there.Some? || back.Some? {
        return None;
      }
      if id in requests || sender == receiver {
        return Some(ConstraintViolation);
      }
      requests := requests[id := S.Request(sender, receiver, S.Pending)];
      return None;
    }

    /** DELETE FROM friend_requests WHERE ..., row by row; counts the rows affected. */
    method DeleteRequests(where: (Uuid, S.Request) -> bool) returns (affected: nat)
      modifies this`requests
      ensures requests == map id | id in old(requests) && !where(id, old(requests)[id]) :: old(requests)[id]
      ensures affected > 0 <==> exists id :: id in old(requests) && where(id, old(requests)[id])
    {
      var todo := requests.Keys;
      affected := 0;
      while todo != {}
        invariant todo <= old(requests).Keys
        invariant requests == map id | id in old(requests) && (id in todo || !where(id, old(requests)[id])) :: old(requests)[id]
        invariant affected > 0 <==> exists id :: id in old(requests) && id !in todo && where(id, old(requests)[id])
        decreases todo
      {
        var id :| id in todo;
        if where(id, requests[id]) {
          requests := requests - {id};
          affected := affected + 1;
        }
        todo := todo - {id};
      }
    }

    /** UPDATE friend_requests SET status = ... WHERE ..., row by row; counts the rows affected. */
    method UpdateRequests(status: S.Status, where: (Uuid, S.Request) -> bool) returns (affected: nat)
      modifies this`requests
      ensures requests == Updated(old(requests), old(requests).Keys, status, where)
      ensures affected > 0 <==> exists id :: id in old(requests) && where(id, old(requests)[id])
    {
      ghost var rows, done := requests, {};
      var todo := requests.Keys;
      affected := 0;
      while todo != {}
        invariant done + todo == rows.Keys && done !! todo
        invariant requests == Updated(rows, done, status, where)
        invariant affected > 0 <==> exists id :: id in done && where(id, rows[id])
        decreases todo
      {
        var id :| id in todo;
        UpdatedOne(rows, done, status, where, id);
        if where(id, requests[id]) {
          requests := requests[id := requests[id].(status := status)];
          affected := affected + 1;
        }
        todo, done := todo - {id}, done + {id};
      }
    }

    method CancelRequest(requestID: Uuid, senderID: UserId) returns (err: Option<Error>)
      modifies this`requests
      ensures (Tables(), err) == S.CancelRequest(old(Tables()), requestID, senderID)
    {
      var affected := DeleteRequests(
        (id, q: S.Request) => id == requestID && q.sender == senderID && q.status == S.Pending);
      if affected == 0 {
        assert requests == old(requests);
        return Some(RequestNotFound);
      }
      assert requests == old(requests) - {requestID};
      return None;
    }

    method RejectRequest(requestID: Uuid, receiverID: UserId) returns (err: Option<Error>)
      modifies this`requests
      ensures (Tables(), err) == S.RejectRequest(old(Tables()), requestID, receiverID)
    {
      var affected := UpdateRequests(S.Rejected,
        (id, q: S.Request) => id == requestID && q.receiver == receiverID && q.status == S.Pending);
      if affected == 0 {
        assert requests == old(requests);
        return Some(RequestNotFound);
      }
      assert requests == old(requests)[requestID := old(requests)[requestID].(status := S.Rejected)];
      return None;
    }

    /** One transaction: read the pending row, mark it, insert the friendship both ways. */
    method AcceptRequest(requestID: Uuid, receiverID: UserId) returns (err: Option<Error>)
      modifies this`requests, this`friends
      ensures (Tables(), err) == S.AcceptRequest(old(Tables()), requestID, receiverID)
    {
      if requestID !in requests || requests[requestID].status != S.Pending {
        return Some(RequestNotFound);
      }
      var sender, receiver := requests[requestID].sender, requests[requestID].receiver;
      if receiver != receiverID {
        return Some(RequestNotFound);
      }
      if sender == receiver {
        return Some(ConstraintViolation); // no_self_friend; the transaction rolls back
      }
      var affected := UpdateRequests(S.Accepted, (id, q: S.Request) => id == requestID && q.status == S.Pending);
      assert requests == old(requests)[requestID := old(requests)[requestID].(status := S.Accepted)];
      friends := friends + {(sender, receiver), (receiver, sender)};
      return None;
    }

    /** One transaction: the block row, the friendship rows, the requests of the pair. */
    method BlockUser(blocker: UserId, target: UserId) returns (err: Option<Error>)
      modifies this`blocks, this`friends, this`requests
      ensures (Tables(), err) == S.BlockUser(old(Tables()), blocker, target)
    {
      if blocker == target {
        return Some(SelfAction);
      }
      blocks := blocks + {(blocker, target)};
      friends := friends - {(blocker, target), (target, blocker)};
      var affected := UpdateRequests(S.Blocked, (id, q: S.Request) => S.Between(q, blocker, target));
      assert requests == S.BlockUser(old(Tables()), blocker, target).0.requests;
      return None;
    }

    method UnblockUser(blocker: UserId, target: UserId) returns (err: Option<Error>)
      modifies this`blocks
      ensures (Tables(), err) == S.UnblockUser(old(Tables()), blocker, target)
    {
      if (blocker, target) !in blocks {
        return Some(BlockNotFound);
      }
      blocks := blocks - {(blocker, target)};
      return None;
    }

    method InsertMessage(m: S.Message) returns (err: Option<Error>)
      modifies this`messages
      ensures (Tables(), err) == S.InsertMessage(old(Tables()), m)
    {
      if exists i :: 0 <= i < |messages| && messages[i].id == m.id {
        return Some(ConstraintViolation);
      }
      messages := messages + [m];
      return None;
    }

    /** A REST handler: one service call, undisturbed. */
    method Serve(call: S.Call)
      requires !call.Send?
      modifies this
      ensures Tables() == S.Apply(old(Tables()), call)
    {
      var err: Option<Error>;
      match call {
        case Create(id, from, to) =>
          var service := new FriendRequestService(this);
          err := service.CreateRequest(id, from, to);
        case Accept(id, user) => err := AcceptRequest(id, user);
        case Reject(id, user) => err := RejectRequest(id, user);
        case Cancel(id, user) => err := CancelRequest(id, user);
        case Block(user, target) => err := BlockUser(user, target);
        case Unblock(user, target) => err := UnblockUser(user, target);
      }
    }
  }

  class FriendRequestService {
    const repo: Database

    constructor (db: Database)
      ensures repo == db
    {
      repo := db;
    }

    /** Four reads and then the insert, each its own statement. */
    method CreateRequest(id: Uuid, userID: UserId, to: UserId) returns (err: Option<Error>)
      modifies repo
      ensures (repo.Tables(), err) == S.CreateRequest(old(repo.Tables()), id, userID, to)
    {
      if to == "" {
        return Some(NotFound);
      }
      if userID == "" {
        return Some(Unauthorized);
      }
      if userID == to {
        return Some(SelfAction);
      }
      var areFriend := repo.AreFriends(userID, to);
      if areFriend {
        return Some(AlreadyFriends);
      }
      var exist := repo.GetPendingRequest(userID, to);
      if exist.Some? {
        return Some(Conflict);
      }
      var reverse := repo.GetPendingRequest(to, userID);
      if reverse.Some? {
        return Some(Conflict);
      }
      var blocked := repo.IsBlocked(to, userID);
      if blocked {
        return Some(BlockedRelationship);
      }
      err := repo.InsertRequest(id, userID, to);
    }
  }

  class MessageService {
    const db: Database
    const hasFriendRepo: bool // friendRepo != nil
    const hasBlockRepo: bool  // blockRepo != nil

    constructor (db: Database, hasFriendRepo: bool, hasBlockRepo: bool)
      ensures this.db == db && this.hasFriendRepo == hasFriendRepo && this.hasBlockRepo == hasBlockRepo
    {
      this.db, this.hasFriendRepo, this.hasBlockRepo := db, hasFriendRepo, hasBlockRepo;
    }

    /** Direct messages can be checked. */
    predicate Guarded() {
      hasFriendRepo && hasBlockRepo
    }

    method CreateMessage(id: Uuid, now: int, senderID: UserId, receiverID: UserId, text: string, isGroup: bool)
      returns (r: Result<S.Message, Error>)
      modifies db
      ensures Guarded() || isGroup ==>
        (db.Tables(), r) == S.CreateMessage(old(db.Tables()), id, now, senderID, receiverID, text, isGroup)
      ensures !Guarded() && !isGroup ==> db.Tables() == old(db.Tables())
      ensures !Guarded() && !isGroup ==>
        r == Err(if senderID == "" || receiverID == "" || Text.TrimSpace(text) == "" then BadRequest else Internal)
    {
      var body := Text.TrimSpace(text);
      if senderID == "" || receiverID == "" || body == "" {
        return Err(BadRequest);
      }
      if !isGroup {
        if !hasFriendRepo || !hasBlockRepo {
          return Err(Internal);
        }
        var blocked := db.IsBlocked(senderID, receiverID);
        if blocked {
          return Err(BlockedRelationship);
        }
        var areFriends := db.AreFriends(senderID, receiverID);
        if !areFriends {
          return Err(Forbidden);
        }
      }
      var m := S.Message(id, senderID, receiverID, body, isGroup, now);
      var err := db.InsertMessage(m);
      if err.Some? {
        return Err(err.value);
      }
      return Ok(m);
    }
  }
}
