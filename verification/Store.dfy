/**
 The PostgreSQL tables and what one SQL statement, one transaction, and one
 service call do to them. A statement or a transaction is one atomic step.
 */
module Store {
  import opened Common
  import Text

  datatype Status = Pending | Accepted | Rejected | Blocked

  datatype Request = Request(sender: UserId, receiver: UserId, status: Status)

  datatype Message = Message(
    id: Uuid, sender: UserId, receiver: UserId, body: string, isGroup: bool, createdAt: int)

  datatype Tables = Tables(
    friends: set<(UserId, UserId)>,
    blocks: set<(UserId, UserId)>,
    requests: map<Uuid, Request>,
    messages: seq<Message>)

  const EMPTY := Tables({}, {}, map[], [])

  /** The unordered pair {a, b} is the one the request is about. */
  predicate Between(q: Request, a: UserId, b: UserId) {
    (q.sender == a && q.receiver == b) || (q.sender == b && q.receiver == a)
  }

  predicate Live(q: Request) {
    q.status == Pending || q.status == Accepted
  }

  // ---------------------------------------------------------------- reads

  predicate IsBlocked(t: Tables, a: UserId, b: UserId) {
    (a, b) in t.blocks || (b, a) in t.blocks
  }

  /** One direction only, as the query asks. */
  predicate AreFriends(t: Tables, a: UserId, b: UserId) {
    (a, b) in t.friends
  }

  predicate HasPending(t: Tables, sender: UserId, receiver: UserId) {
    exists id :: id in t.requests && t.requests[id] == Request(sender, receiver, Pending)
  }

  predicate PendingBetween(t: Tables, a: UserId, b: UserId) {
    HasPending(t, a, b) || HasPending(t, b, a)
  }

  // ------------------------------------------------- statements and transactions

  /** INSERT ... WHERE NOT EXISTS (pending either way): silently inserts nothing when one exists. */
  function InsertRequest(t: Tables, id: Uuid, sender: UserId, receiver: UserId): (Tables, Option<Error>) {
    if PendingBetween(t, sender, receiver) then (t, None)
    else if id in t.requests || sender == receiver then (t, Some(ConstraintViolation))
    else (t.(requests := t.requests[id := Request(sender, receiver, Pending)]), None)
  }

  function AcceptRequest(t: Tables, id: Uuid, user: UserId): (Tables, Option<Error>) {
    if id !in t.requests || t.requests[id].status != Pending then (t, Some(RequestNotFound))
    else
      var q := t.requests[id];
      if q.receiver != user then (t, Some(RequestNotFound))
      else if q.sender == q.receiver then (t, Some(ConstraintViolation))
      else
        (t.(requests := t.requests[id := q.(status := Accepted)],
            friends := t.friends + {(q.sender, q.receiver), (q.receiver, q.sender)}), None)
  }

  function RejectRequest(t: Tables, id: Uuid, user: UserId): (Tables, Option<Error>) {
    if id in t.requests && t.requests[id].receiver == user && t.requests[id].status == Pending then
      (t.(requests := t.requests[id := t.requests[id].(status := Rejected)]), None)
    else (t, Some(RequestNotFound))
  }

  function CancelRequest(t: Tables, id: Uuid, user: UserId): (Tables, Option<Error>) {
    if id in t.requests && t.requests[id].sender == user && t.requests[id].status == Pending then
      (t.(requests := t.requests - {id}), None)
    else (t, Some(RequestNotFound))
  }

  /** One transaction: block row, friendship rows, then every request of the pair, whatever its status. */
  function BlockUser(t: Tables, blocker: UserId, target: UserId): (Tables, Option<Error>) {
    if blocker == target then (t, Some(SelfAction))
    else
      (t.(blocks := t.blocks + {(blocker, target)},
          friends := t.friends - {(blocker, target), (target, blocker)},
          requests := map id | id in t.requests ::
            if Between(t.requests[id], blocker, target) then t.requests[id].(status := Blocked)
            else t.requests[id]), None)
  }

  function UnblockUser(t: Tables, blocker: UserId, target: UserId): (Tables, Option<Error>) {
    if (blocker, target) in t.blocks then (t.(blocks := t.blocks - {(blocker, target)}), None)
    else (t, Some(BlockNotFound))
  }

  predicate HasMessage(t: Tables, id: Uuid) {
    exists i :: 0 <= i < |t.messages| && t.messages[i].id == id
  }

  function InsertMessage(t: Tables, m: Message): (Tables, Option<Error>) {
    if HasMessage(t, m.id) then (t, Some(ConstraintViolation))
    else (t.(messages := t.messages + [m]), None)
  }

  /** One write that the database carries out atomically. */
  datatype Write =
    | Nothing
    | Insert(id: Uuid, sender: UserId, receiver: UserId)
    | MarkAccepted(id: Uuid, user: UserId)
    | MarkRejected(id: Uuid, user: UserId)
    | Delete(id: Uuid, user: UserId)
    | BlockPair(user: UserId, target: UserId)
    | UnblockPair(user: UserId, target: UserId)
    | Append(m: Message)

  function Execute(t: Tables, w: Write): Tables {
    match w
    case Nothing => t
    case Insert(id, sender, receiver) => InsertRequest(t, id, sender, receiver).0
    case MarkAccepted(id, user) => AcceptRequest(t, id, user).0
    case MarkRejected(id, user) => RejectRequest(t, id, user).0
    case Delete(id, user) => CancelRequest(t, id, user).0
    case BlockPair(user, target) => BlockUser(t, user, target).0
    case UnblockPair(user, target) => UnblockUser(t, user, target).0
    case Append(m) => InsertMessage(t, m).0
  }

  // --------------------------------------------------------- service calls

  /** The friend-request service: four checks, then the insert, with nothing in between. */
  function CreateRequest(t: Tables, id: Uuid, from: UserId, to: UserId): (Tables, Option<Error>) {
    if to == "" then (t, Some(NotFound))
    else if from == "" then (t, Some(Unauthorized))
    else if from == to then (t, Some(SelfAction))
    else if AreFriends(t, from, to) then (t, Some(AlreadyFriends))
    else if HasPending(t, from, to) then (t, Some(Conflict))
    else if HasPending(t, to, from) then (t, Some(Conflict))
    else if IsBlocked(t, to, from) then (t, Some(BlockedRelationship))
    else InsertRequest(t, id, from, to)
  }

  /** The message service: validation, block check, friendship check, insert. */
  function CreateMessage(t: Tables, id: Uuid, now: int, sender: UserId, receiver: UserId, text: string, isGroup: bool)
    : (Tables, Result<Message, Error>)
  {
    var body := Text.TrimSpace(text);
    if sender == "" || receiver == "" || body == "" then (t, Err(BadRequest))
    else if !isGroup && IsBlocked(t, sender, receiver) then (t, Err(BlockedRelationship))
    else if !isGroup && !AreFriends(t, sender, receiver) then (t, Err(Forbidden))
    else
      var m := Message(id, sender, receiver, body, isGroup, now);
      var (t', err) := InsertMessage(t, m);
      (t', if err.Some? then Err(err.value) else Ok(m))
  }

  /** A whole service call taken as one step. */
  datatype Call =
    | Create(id: Uuid, from: UserId, to: UserId)
    | Accept(id: Uuid, user: UserId)
    | Reject(id: Uuid, user: UserId)
    | Cancel(id: Uuid, user: UserId)
    | Block(user: UserId, target: UserId)
    | Unblock(user: UserId, target: UserId)
    | Send(id: Uuid, now: int, from: UserId, to: UserId, text: string, isGroup: bool)

  function Apply(t: Tables, c: Call): Tables {
    match c
    case Create(id, from, to) => CreateRequest(t, id, from, to).0
    case Accept(id, user) => AcceptRequest(t, id, user).0
    case Reject(id, user) => RejectRequest(t, id, user).0
    case Cancel(id, user) => CancelRequest(t, id, user).0
    case Block(user, target) => BlockUser(t, user, target).0
    case Unblock(user, target) => UnblockUser(t, user, target).0
    case Send(id, now, from, to, text, isGroup) => CreateMessage(t, id, now, from, to, text, isGroup).0
  }

  function ApplyAll(t: Tables, calls: seq<Call>): Tables {
    if calls == [] then t
    else Apply(ApplyAll(t, calls[..|calls| - 1]), calls[|calls| - 1])
  }
}
