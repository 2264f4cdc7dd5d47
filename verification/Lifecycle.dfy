/** The life of one friend request over a whole schedule of interleaved statements. */
module Lifecycle {
  import opened Common
  import opened Store
  import opened Interleaving

  datatype Stage = Unborn | InTable(status: Status) | Gone

  ghost predicate BeingCreated(s: Shared, id: Uuid) {
    exists i :: i in s.threads && Creates(s.threads[i], id)
  }

  /** The thread may still insert a request with this id. */
  predicate Creates(th: Thread, id: Uuid) {
    match th
    case AtFriends(k, _, _) => k == id
    case AtForward(k, _, _) => k == id
    case AtReverse(k, _, _) => k == id
    case AtBlocked(k, _, _) => k == id
    case AtWrite(Insert(k, _, _)) => k == id
    case _ => false
  }

  ghost function StageOf(s: Shared, id: Uuid): Stage {
    if id in s.tables.requests then InTable(s.tables.requests[id].status)
    else if id !in s.used || BeingCreated(s, id) then Unborn
    else Gone
  }

  /** Everything a request may still become. */
  predicate MayBecome(x: Stage, y: Stage) {
    match x
    case Unborn => true
    case InTable(Pending) => y != Unborn
    case InTable(Accepted) => y == InTable(Accepted) || y == InTable(Blocked)
    case InTable(Rejected) => y == InTable(Rejected) || y == InTable(Blocked)
    case InTable(Blocked) => y == InTable(Blocked)
    case Gone => y == Gone
  }

  /** Each id belongs to one creating thread, and never to a row at the same time. */
  ghost predicate IdsFresh(s: Shared) {
    && (forall i, id | i in s.threads && Creates(s.threads[i], id) :: id in s.used && id !in s.tables.requests)
    && (forall i, j, id | i in s.threads && j in s.threads :: Creates(s.threads[i], id) && Creates(s.threads[j], id) ==> i == j)
    && (forall id :: id in s.tables.requests ==> id in s.used)
  }

  /** Advancing never makes a thread create an id it was not creating before. */
  lemma AdvanceKeepsId(t: Tables, th: Thread, id: Uuid)
    ensures Creates(Advance(t, th).1, id) ==> Creates(th, id) && Advance(t, th).0 == t
    ensures id in Advance(t, th).0.requests && id !in t.requests ==> Creates(th, id)
  {
  }

  lemma StepKeepsIdsFresh(s: Shared, i: nat)
    requires IdsFresh(s) && i in s.threads
    ensures IdsFresh(Take(s, Step(i)))
  {
    var th := s.threads[i];
    var (t', th') := Advance(s.tables, th);
    var s' := s.(tables := t', threads := s.threads[i := th']);
    assert s' == Take(s, Step(i));
    forall id { AdvanceKeepsId(s.tables, th, id); }
    forall j, id | j in s'.threads && Creates(s'.threads[j], id)
      ensures Creates(s.threads[j], id) && id in s'.used && id !in t'.requests
    {
      assert j != i ==> s.threads[j] == s'.threads[j];
    }
  }

  lemma StartKeepsIdsFresh(s: Shared, i: nat, c: Call)
    requires IdsFresh(s) && Enabled(s, Start(i, c))
    ensures IdsFresh(Take(s, Start(i, c)))
  {
    forall id | Creates(Begin(c), id) ensures c.Create? && id == c.id {
    }
  }

  lemma TakeKeepsIdsFresh(s: Shared, a: Action)
    requires IdsFresh(s) && Enabled(s, a)
    ensures IdsFresh(Take(s, a))
  {
    match a
    case Start(i, c) => StartKeepsIdsFresh(s, i, c);
    case Step(i) => StepKeepsIdsFresh(s, i);
  }

  /** One write: what it does to one row of the request table. */
  lemma WriteMovesForward(t: Tables, w: Write, id: Uuid)
    requires id in t.requests
    ensures var t' := Execute(t, w);
      if id in t'.requests then
        && MayBecome(InTable(t.requests[id].status), InTable(t'.requests[id].status))
        && t'.requests[id] == t.requests[id].(status := t'.requests[id].status)
      else t.requests[id].status == Pending
  {
  }

  /** Who moves a request: its receiver answers, its sender withdraws, either side of the pair blocks. */
  lemma WhoMoves(t: Tables, w: Write, id: Uuid)
    requires id in t.requests
    ensures var q := t.requests[id]; var t' := Execute(t, w);
      && (id !in t'.requests <==> w == Delete(id, q.sender) && q.status == Pending)
      && (id in t'.requests && t'.requests[id].status == Accepted && q.status != Accepted <==>
          w == MarkAccepted(id, q.receiver) && q.status == Pending && q.sender != q.receiver)
      && (id in t'.requests && t'.requests[id].status == Rejected && q.status != Rejected <==>
          w == MarkRejected(id, q.receiver) && q.status == Pending)
      && (id in t'.requests && t'.requests[id].status == Blocked && q.status != Blocked <==>
          w.BlockPair? && Between(q, w.user, w.target) && w.user != w.target && q.status != Blocked)
  {
  }

  lemma NewRowIsPending(t: Tables, w: Write, id: Uuid)
    requires id !in t.requests && id in Execute(t, w).requests
    ensures w.Insert? && w.id == id && Execute(t, w).requests[id].status == Pending
  {
  }

  lemma BeginCreates(c: Call, id: Uuid)
    ensures Creates(Begin(c), id) ==> c.Create? && c.id == id
  {
  }

  /** An id in creation after an action was in creation before, or has just been drawn. */
  lemma CreatedBefore(s: Shared, a: Action, id: Uuid)
    requires Enabled(s, a) && BeingCreated(Take(s, a), id)
    ensures BeingCreated(s, id) || id !in s.used
  {
    var i :| i in Take(s, a).threads && Creates(Take(s, a).threads[i], id);
    if i != a.thread {
      assert i in s.threads && Creates(s.threads[i], id);
    } else if a.Step? {
      AdvanceKeepsId(s.tables, s.threads[i], id);
      assert Creates(s.threads[i], id);
    } else {
      BeginCreates(a.call, id);
    }
  }

  lemma TakeMovesForward(s: Shared, a: Action, id: Uuid)
    requires IdsFresh(s) && Enabled(s, a)
    ensures MayBecome(StageOf(s, id), StageOf(Take(s, a), id))
  {
    var w := WriteAt(s, a);
    ActionIsWrite(s, a);
    if BeingCreated(Take(s, a), id) {
      CreatedBefore(s, a, id);
      TakeKeepsIdsFresh(s, a);
    }
    if id in s.tables.requests {
      WriteMovesForward(s.tables, w, id);
    } else if id in Execute(s.tables, w).requests {
      NewRowIsPending(s.tables, w, id);
      assert Creates(s.threads[a.thread], id);
    }
  }

  lemma {:induction false} ReachableIdsFresh(acts: seq<Action>)
    requires Exec(acts).Some?
    ensures IdsFresh(Exec(acts).value)
  {
    if acts != [] {
      ReachableIdsFresh(acts[..|acts| - 1]);
      TakeKeepsIdsFresh(Exec(acts[..|acts| - 1]).value, acts[|acts| - 1]);
    }
  }

  lemma MayBecomeTransitive(x: Stage, y: Stage, z: Stage)
    requires MayBecome(x, y) && MayBecome(y, z)
    ensures MayBecome(x, z)
  {
  }

  /** Between any two moments of any schedule, every request only moves forward. */
  lemma {:induction false} RequestsMoveForward(acts: seq<Action>, k: nat, id: Uuid)
    requires Exec(acts).Some? && k <= |acts|
    ensures Exec(acts[..k]).Some?
    ensures MayBecome(StageOf(Exec(acts[..k]).value, id), StageOf(Exec(acts).value, id))
  {
    PrefixRuns(acts, k);
    if k == |acts| {
      assert acts[..k] == acts;
    } else {
      var front := acts[..|acts| - 1];
      RequestsMoveForward(front, k, id);
      assert front[..k] == acts[..k];
      ReachableIdsFresh(front);
      TakeMovesForward(Exec(front).value, acts[|acts| - 1], id);
      MayBecomeTransitive(StageOf(Exec(acts[..k]).value, id), StageOf(Exec(front).value, id), StageOf(Exec(acts).value, id));
    }
  }

  /** How often the status column of a row changed along a schedule. */
  ghost function StatusChanges(acts: seq<Action>, id: Uuid): nat
    requires Exec(acts).Some?
  {
    if acts == [] then 0
    else
      var front := acts[..|acts| - 1];
      var x := StageOf(Exec(front).value, id);
      var y := StageOf(Exec(acts).value, id);
      StatusChanges(front, id) + if x.InTable? && y.InTable? && x != y then 1 else 0
  }

  function Progress(x: Stage): nat {
    match x
    case Unborn => 0
    case InTable(Pending) => 0
    case InTable(Blocked) => 2
    case InTable(_) => 1
    case Gone => 2
  }

  lemma ProgressGrows(x: Stage, y: Stage)
    requires MayBecome(x, y)
    ensures Progress(x) + (if x.InTable? && y.InTable? && x != y then 1 else 0) <= Progress(y)
  {
  }

  lemma {:induction false} ChangesBoundedByProgress(acts: seq<Action>, id: Uuid)
    requires Exec(acts).Some?
    ensures StatusChanges(acts, id) <= Progress(StageOf(Exec(acts).value, id))
  {
    if acts != [] {
      var front := acts[..|acts| - 1];
      ChangesBoundedByProgress(front, id);
      ReachableIdsFresh(front);
      TakeMovesForward(Exec(front).value, acts[|acts| - 1], id);
      ProgressGrows(StageOf(Exec(front).value, id), StageOf(Exec(acts).value, id));
    }
  }

  /** No request changes status more than twice, whatever the schedule. */
  lemma AtMostTwoChanges(acts: seq<Action>, id: Uuid)
    requires Exec(acts).Some?
    ensures StatusChanges(acts, id) <= 2
  {
    ChangesBoundedByProgress(acts, id);
  }
}
