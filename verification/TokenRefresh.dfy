/**
 The single-flight token refresh of the web client: one event-loop turn per
 action, over the module variables isRefreshing and failedQueue.
 axios carries the _retry flag of a request over to its resend.
 */
module TokenRefresh {
  import Common

  type RequestId = nat

  /** One entry of failedQueue, with the refresh that was in flight when it was queued. */
  datatype Waiter = Waiter(request: RequestId, round: nat)

  /** A queued promise was settled, by that refresh. */
  datatype Settlement = Settlement(waiter: Waiter, refresh: nat, resolved: bool)

  datatype Phase = Sent | Queued | Refreshing | Finished(ok: bool)

  datatype State = State(
    phase: map<RequestId, Phase>, // every request issued so far
    retried: set<RequestId>,      // the _retry flags
    isRefreshing: bool,
    failedQueue: seq<Waiter>,
    inFlight: set<nat>,           // refresh POSTs without a reply
    rounds: nat,                  // refresh POSTs made
    initiator: map<nat, RequestId>,
    hasToken: bool,               // a refresh token is stored
    sends: nat,
    turns: nat,
    queued: seq<Waiter>,          // history of pushes to failedQueue
    settled: seq<Settlement>)     // history of resolve and reject calls

  const INITIAL := State(map[], {}, false, [], {}, 0, map[], false, 0, 0, [], [])

  datatype Reply = Success | Unauthorized | OtherError

  datatype Action =
    | Issue(r: RequestId)
    | Answer(r: RequestId, reply: Reply)
    | RefreshAnswer(round: nat, ok: bool, hasToken: bool) // the token store after a good reply is up to the server
    | SetToken(present: bool)                            // login and logout elsewhere

  predicate Enabled(s: State, a: Action) {
    match a
    case Issue(r) => r !in s.phase
    case Answer(r, _) => r in s.phase && s.phase[r] == Sent
    case RefreshAnswer(k, _, _) => k in s.inFlight && k in s.initiator && s.initiator[k] in s.phase
    case SetToken(_) => true
  }

  // -------------------------------------------------------------- one turn

  /** processQueue: every waiter is settled, in queue order, and the queue emptied. */
  function Settlements(queue: seq<Waiter>, refresh: nat, resolved: bool): (r: seq<Settlement>)
    ensures |r| == |queue|
    ensures forall i | 0 <= i < |queue| :: r[i] == Settlement(queue[i], refresh, resolved)
  {
    seq(|queue|, i requires 0 <= i < |queue| => Settlement(queue[i], refresh, resolved))
  }

  function WaitersIn(queue: seq<Waiter>): set<RequestId> {
    set w | w in queue :: w.request
  }

  /** A 401 for a request without the flag. */
  function OnUnauthorized(s: State, r: RequestId): State {
    if s.isRefreshing then
      var w := Waiter(r, s.rounds);
      s.(failedQueue := s.failedQueue + [w], queued := s.queued + [w], phase := s.phase[r := Queued])
    else if !s.hasToken then
      s.(retried := s.retried + {r}, phase := s.phase[r := Finished(false)])
    else
      var k := s.rounds + 1;
      s.(retried := s.retried + {r}, isRefreshing := true, phase := s.phase[r := Refreshing],
         rounds := k, inFlight := s.inFlight + {k}, initiator := s.initiator[k := r])
  }

  function OnAnswer(s: State, r: RequestId, reply: Reply): State {
    if reply == Unauthorized && r !in s.retried then OnUnauthorized(s, r)
    else s.(phase := s.phase[r := Finished(reply == Success)])
  }

  /** The refresh came back: settle the queue; on success resend the waiters and the initiator. */
  function OnRefreshAnswer(s: State, k: nat, ok: bool, hasToken: bool): State
    requires k in s.initiator
  {
    var me := s.initiator[k];
    var others := WaitersIn(s.failedQueue);
    s.(inFlight := s.inFlight - {k},
       isRefreshing := false,
       failedQueue := [],
       settled := s.settled + Settlements(s.failedQueue, k, ok),
       hasToken := ok && hasToken,
       phase := map r | r in s.phase ::
         if r == me || r in others then (if ok then Sent else Finished(false)) else s.phase[r],
       sends := s.sends + if ok then 1 + |s.failedQueue| else 0)
  }

  function Next(s: State, a: Action): State
    requires Enabled(s, a)
  {
    match a
    case Issue(r) => s.(phase := s.phase[r := Sent], sends := s.sends + 1, turns := s.turns + 1)
    case Answer(r, reply) => OnAnswer(s, r, reply).(turns := s.turns + 1)
    case RefreshAnswer(k, ok, hasToken) => OnRefreshAnswer(s, k, ok, hasToken).(turns := s.turns + 1)
    case SetToken(present) => s.(hasToken := present)
  }

  function Exec(acts: seq<Action>): Common.Option<State> {
    if acts == [] then Common.Some(INITIAL)
    else
      var s := Exec(acts[..|acts| - 1]);
      var a := acts[|acts| - 1];
      if s.Some? && Enabled(s.value, a) then Common.Some(Next(s.value, a)) else Common.None
  }

  // -------------------------------------------------------------- single flight

  /** isRefreshing holds exactly when one refresh POST, the latest, is in flight; without it nobody waits. */
  ghost predicate SingleFlight(s: State) {
    && s.inFlight == (if s.isRefreshing then {s.rounds} else {})
    && (!s.isRefreshing ==> s.failedQueue == [])
  }

  /** Everybody in the queue waits for the refresh in flight, once, and has not been retried. */
  ghost predicate QueueInv(s: State) {
    && (forall i, j :: 0 <= i < j < |s.failedQueue| ==> s.failedQueue[i].request != s.failedQueue[j].request)
    && (forall w | w in s.failedQueue ::
         w.round == s.rounds && w.request in s.phase && s.phase[w.request] == Queued && w.request !in s.retried)
  }

  ghost predicate InitiatorInv(s: State) {
    && s.retried <= s.phase.Keys
    && (s.isRefreshing ==>
         && s.rounds in s.initiator
         && var me := s.initiator[s.rounds]; me in s.phase && s.phase[me] == Refreshing && me in s.retried)
  }

  function Waiters(settled: seq<Settlement>): (r: seq<Waiter>)
    ensures |r| == |settled|
    ensures forall i | 0 <= i < |settled| :: r[i] == settled[i].waiter
  {
    seq(|settled|, i requires 0 <= i < |settled| => settled[i].waiter)
  }

  /** Every push is settled exactly once, in FIFO order, by the refresh in flight at the push. */
  ghost predicate SettledOnce(s: State) {
    && s.queued == Waiters(s.settled) + s.failedQueue
    && (forall i | 0 <= i < |s.settled| :: s.settled[i].refresh == s.settled[i].waiter.round)
  }

  ghost predicate FlightInv(s: State) {
    SingleFlight(s) && QueueInv(s) && InitiatorInv(s) && SettledOnce(s)
  }

  lemma UnauthorizedKeepsFlight(s: State, r: RequestId)
    requires FlightInv(s) && r in s.phase && s.phase[r] == Sent && r !in s.retried
    ensures FlightInv(OnUnauthorized(s, r))
  {
    var s' := OnUnauthorized(s, r);
    if s.isRefreshing {
      assert s'.queued == Waiters(s.settled) + s'.failedQueue;
      assert forall w | w in s.failedQueue :: s'.phase[w.request] == s.phase[w.request];
    }
  }

  lemma RefreshKeepsFlight(s: State, k: nat, ok: bool, hasToken: bool)
    requires FlightInv(s) && Enabled(s, RefreshAnswer(k, ok, hasToken))
    ensures FlightInv(OnRefreshAnswer(s, k, ok, hasToken))
  {
    var s' := OnRefreshAnswer(s, k, ok, hasToken);
    assert Waiters(s'.settled) == Waiters(s.settled) + s.failedQueue;
    assert s'.queued == Waiters(s'.settled) + [];
    forall i | 0 <= i < |s'.settled| ensures s'.settled[i].refresh == s'.settled[i].waiter.round {
      if i >= |s.settled| { assert s.failedQueue[i - |s.settled|] in s.failedQueue; }
    }
  }

  lemma NextKeepsFlight(s: State, a: Action)
    requires FlightInv(s) && Enabled(s, a)
    ensures FlightInv(Next(s, a))
  {
    match a
    case Issue(r) =>
    case Answer(r, reply) =>
      if reply == Unauthorized && r !in s.retried { UnauthorizedKeepsFlight(s, r); }
    case RefreshAnswer(k, ok, hasToken) => RefreshKeepsFlight(s, k, ok, hasToken);
    case SetToken(present) =>
  }

  /** Single flight, at every turn boundary of every run. */
  lemma {:induction false} SingleFlightAlways(acts: seq<Action>)
    requires Exec(acts).Some?
    ensures FlightInv(Exec(acts).value)
  {
    if acts != [] {
      SingleFlightAlways(acts[..|acts| - 1]);
      NextKeepsFlight(Exec(acts[..|acts| - 1]).value, acts[|acts| - 1]);
    }
  }

  // ------------------------------------------------------------ retries terminate

  /** Resends that k rounds can cause among n requests: in round j, the initiator and those not flagged yet. */
  function Budget(n: nat, k: nat): int {
    if k == 0 then 0 else Budget(n, k - 1) + n + 1 - k
  }

  lemma {:induction false} BudgetClosed(n: nat, k: nat)
    ensures 2 * Budget(n, k) == 2 * k * (n + 1) - k * (k + 1)
  {
    if k > 0 {
      BudgetClosed(n, k - 1);
    }
  }

  lemma {:induction false} BudgetMoreRequests(n: nat, k: nat)
    ensures Budget(n + 1, k) == Budget(n, k) + k
  {
    if k > 0 { BudgetMoreRequests(n, k - 1); }
  }

  lemma {:induction false} BudgetMonotone(n: nat, k: nat)
    requires k <= n
    ensures Budget(n, k) <= Budget(n, n)
    decreases n - k
  {
    if k < n { BudgetMonotone(n, k + 1); }
  }

  ghost function SentIn(phase: map<RequestId, Phase>): set<RequestId> {
    set r | r in phase && phase[r] == Sent
  }

  ghost function InTransit(s: State): set<RequestId> {
    SentIn(s.phase)
  }

  lemma SentAdds(phase: map<RequestId, Phase>, r: RequestId)
    requires r !in phase
    ensures |SentIn(phase[r := Sent])| == |SentIn(phase)| + 1
    ensures |phase[r := Sent]| == |phase| + 1
  {
    assert SentIn(phase[r := Sent]) == SentIn(phase) + {r};
  }

  lemma SentRemoves(phase: map<RequestId, Phase>, r: RequestId, now: Phase)
    requires r in phase && phase[r] == Sent && now != Sent
    ensures |SentIn(phase[r := now])| == |SentIn(phase)| - 1
    ensures |phase[r := now]| == |phase|
  {
    assert SentIn(phase[r := now]) == SentIn(phase) - {r};
    assert phase[r := now].Keys == phase.Keys;
  }

  /** Sends so far, plus what the refresh in flight may still cause, stay within the budget. */
  ghost predicate BudgetInv(s: State) {
    && s.rounds <= |s.retried| <= |s.phase|
    && s.sends - |s.phase| + (if s.isRefreshing then 1 + |s.phase| - |s.retried| else 0)
       <= Budget(|s.phase|, |s.retried|)
  }

  /** Every send is answered at most once: turns taken and answers outstanding balance. */
  ghost predicate Balanced(s: State) {
    s.turns + |InTransit(s)| + |s.inFlight| == |s.phase| + s.sends + s.rounds
  }

  lemma SubsetSize(a: set<RequestId>, b: set<RequestId>)
    requires a <= b
    ensures |a| <= |b|
  {
    assert b == a + (b - a);
  }

  /** Nobody in the queue is flagged, so the queue and the flags together fit among the requests. */
  lemma {:induction false} QueueSize(queue: seq<Waiter>)
    requires forall i, j :: 0 <= i < j < |queue| ==> queue[i].request != queue[j].request
    ensures |WaitersIn(queue)| == |queue|
  {
    if queue != [] {
      var front := queue[..|queue| - 1];
      var w := queue[|queue| - 1];
      QueueSize(front);
      assert queue == front + [w];
      assert WaitersIn(queue) == WaitersIn(front) + {w.request};
      assert w.request !in WaitersIn(front);
    }
  }

  lemma QueueFits(s: State)
    requires FlightInv(s)
    ensures |s.failedQueue| + |s.retried| <= |s.phase|
  {
    QueueSize(s.failedQueue);
    var both := WaitersIn(s.failedQueue) + s.retried;
    assert WaitersIn(s.failedQueue) !! s.retried;
    assert |both| == |s.failedQueue| + |s.retried|;
    SubsetSize(both, s.phase.Keys);
  }

  lemma IssueKeepsBudget(s: State, r: RequestId)
    requires FlightInv(s) && BudgetInv(s) && r !in s.phase
    ensures BudgetInv(Next(s, Issue(r)))
  {
    BudgetMoreRequests(|s.phase|, |s.retried|);
    if s.isRefreshing { SubsetSize({s.initiator[s.rounds]}, s.retried); }
  }

  lemma IssueBalances(s: State, r: RequestId)
    requires Balanced(s) && r !in s.phase
    ensures Balanced(Next(s, Issue(r)))
  {
    SentAdds(s.phase, r);
  }

  /** Only a first 401 outside a refresh flags its request. */
  lemma AnswerFlags(s: State, r: RequestId, reply: Reply)
    requires Enabled(s, Answer(r, reply))
    ensures var s' := Next(s, Answer(r, reply));
      && s'.phase.Keys == s.phase.Keys && s'.sends == s.sends
      && if reply == Unauthorized && r !in s.retried && !s.isRefreshing then s'.retried == s.retried + {r}
         else s'.retried == s.retried && s'.isRefreshing == s.isRefreshing && s'.rounds == s.rounds
  {
  }

  lemma AnswerKeepsBudget(s: State, r: RequestId, reply: Reply)
    requires FlightInv(s) && BudgetInv(s) && Enabled(s, Answer(r, reply))
    ensures BudgetInv(Next(s, Answer(r, reply)))
  {
    var s' := Next(s, Answer(r, reply));
    AnswerFlags(s, r, reply);
    if s'.retried != s.retried {
      assert |s'.retried| == |s.retried| + 1;
      SubsetSize(s'.retried, s.phase.Keys);
    }
  }

  lemma AnswerMoves(s: State, r: RequestId, reply: Reply)
    requires FlightInv(s) && Enabled(s, Answer(r, reply))
    ensures var s' := Next(s, Answer(r, reply));
      && r in s'.phase && s'.phase[r] != Sent && s'.phase == s.phase[r := s'.phase[r]]
      && s'.turns == s.turns + 1 && s'.sends == s.sends
      && |s'.inFlight| - |s.inFlight| == s'.rounds - s.rounds
  {
  }

  lemma AnswerBalances(s: State, r: RequestId, reply: Reply)
    requires FlightInv(s) && Balanced(s) && Enabled(s, Answer(r, reply))
    ensures Balanced(Next(s, Answer(r, reply)))
  {
    AnswerMoves(s, r, reply);
    SentRemoves(s.phase, r, Next(s, Answer(r, reply)).phase[r]);
  }

  lemma RefreshTransit(s: State, k: nat, ok: bool, hasToken: bool)
    requires FlightInv(s) && Enabled(s, RefreshAnswer(k, ok, hasToken))
    ensures |InTransit(OnRefreshAnswer(s, k, ok, hasToken))| == |InTransit(s)| + if ok then 1 + |s.failedQueue| else 0
  {
    var s' := OnRefreshAnswer(s, k, ok, hasToken);
    var me := s.initiator[k];
    var others := WaitersIn(s.failedQueue);
    QueueSize(s.failedQueue);
    assert me !in others && me !in InTransit(s) && others !! InTransit(s);
    if ok {
      assert InTransit(s') == InTransit(s) + ({me} + others);
      assert |{me} + others| == 1 + |others|;
    } else {
      assert InTransit(s') == InTransit(s);
    }
  }

  lemma RefreshKeepsBudget(s: State, k: nat, ok: bool, hasToken: bool)
    requires FlightInv(s) && BudgetInv(s) && Enabled(s, RefreshAnswer(k, ok, hasToken))
    ensures BudgetInv(Next(s, RefreshAnswer(k, ok, hasToken)))
  {
    QueueFits(s);
    assert Next(s, RefreshAnswer(k, ok, hasToken)).phase.Keys == s.phase.Keys;
  }

  lemma RefreshBalances(s: State, k: nat, ok: bool, hasToken: bool)
    requires FlightInv(s) && Balanced(s) && Enabled(s, RefreshAnswer(k, ok, hasToken))
    ensures Balanced(Next(s, RefreshAnswer(k, ok, hasToken)))
  {
    var s' := Next(s, RefreshAnswer(k, ok, hasToken));
    RefreshTransit(s, k, ok, hasToken);
    assert s'.phase.Keys == s.phase.Keys;
    assert InTransit(s') == InTransit(OnRefreshAnswer(s, k, ok, hasToken));
  }

  lemma NextKeepsBudget(s: State, a: Action)
    requires FlightInv(s) && BudgetInv(s) && Balanced(s) && Enabled(s, a)
    ensures BudgetInv(Next(s, a)) && Balanced(Next(s, a))
  {
    match a
    case Issue(r) => IssueKeepsBudget(s, r); IssueBalances(s, r);
    case Answer(r, reply) => AnswerKeepsBudget(s, r, reply); AnswerBalances(s, r, reply);
    case RefreshAnswer(k, ok, hasToken) =>
      RefreshKeepsBudget(s, k, ok, hasToken);
      RefreshBalances(s, k, ok, hasToken);
    case SetToken(present) => assert InTransit(Next(s, a)) == InTransit(s);
  }

  lemma {:induction false} BudgetAlways(acts: seq<Action>)
    requires Exec(acts).Some?
    ensures BudgetInv(Exec(acts).value) && Balanced(Exec(acts).value)
  {
    if acts == [] {
      assert InTransit(INITIAL) == {};
    } else {
      var front := acts[..|acts| - 1];
      SingleFlightAlways(front);
      BudgetAlways(front);
      NextKeepsBudget(Exec(front).value, acts[|acts| - 1]);
    }
  }

  lemma FullBudget(n: nat)
    ensures 2 * Budget(n, n) == n * (n + 1)
  {
    BudgetClosed(n, n);
    assert 2 * n * (n + 1) == 2 * (n * (n + 1));
  }

  /**
   Retry termination: when n requests were issued, whatever they and the
   refreshes are answered, at most n refresh POSTs and n + n(n+1)/2 sends were
   made, and the run took at most 3n + n(n+1)/2 turns.
   */
  lemma RetriesTerminate(acts: seq<Action>)
    requires Exec(acts).Some?
    ensures var s := Exec(acts).value; var n := |s.phase|;
      && s.rounds <= n
      && 2 * s.sends <= 2 * n + n * (n + 1)
      && 2 * s.turns <= 6 * n + n * (n + 1)
  {
    var s := Exec(acts).value;
    BudgetAlways(acts);
    BudgetMonotone(|s.phase|, |s.retried|);
    FullBudget(|s.phase|);
  }

  // ------------------------------------------------------------- the bound is attained

  ghost predicate Reachable(s: State) {
    exists acts :: Exec(acts) == Common.Some(s)
  }

  lemma ReachNext(s: State, a: Action) returns (s': State)
    requires Reachable(s) && Enabled(s, a)
    ensures s' == Next(s, a) && Reachable(s')
  {
    var acts :| Exec(acts) == Common.Some(s);
    assert (acts + [a])[..|acts + [a]| - 1] == acts;
    assert Exec(acts + [a]) == Common.Some(Next(s, a));
    s' := Next(s, a);
  }

  /** Requests before k have failed; in a round k refreshes and those up to hi wait for it; the others are on their way. */
  ghost predicate Phases(phase: map<RequestId, Phase>, n: nat, k: nat, refreshing: bool, hi: nat) {
    && (forall r: nat :: r in phase <==> r < n)
    && (forall r | r in phase :: phase[r] ==
         if r < k then Finished(false) else if refreshing && r == k then Refreshing
         else if refreshing && r < hi then Queued else Sent)
  }

  ghost predicate UpTo(requests: set<RequestId>, lo: nat, hi: nat) {
    forall r: nat :: r in requests <==> lo <= r < hi
  }

  /** Requests 0..n-1 were issued; the first k have used up their retry, the others are on their way again. */
  ghost predicate Worst(s: State, n: nat, k: nat) {
    && Reachable(s) && k <= n
    && Phases(s.phase, n, k, false, 0) && UpTo(s.retried, 0, k)
    && !s.isRefreshing && s.failedQueue == [] && s.rounds == k && s.hasToken
    && |s.phase| == n && s.sends == n + Budget(n, k)
  }

  lemma PhaseIssued(phase: map<RequestId, Phase>, n: nat)
    requires Phases(phase, n, 0, false, 0)
    ensures n !in phase && Phases(phase[n := Sent], n + 1, 0, false, 0) && |phase[n := Sent]| == |phase| + 1
  {
  }

  lemma WorstIssue(s: State, n: nat) returns (s': State)
    requires Worst(s, n, 0)
    ensures Worst(s', n + 1, 0)
  {
    PhaseIssued(s.phase, n);
    s' := ReachNext(s, Issue(n));
  }

  lemma WorstStart(n: nat) returns (s: State)
    ensures Worst(s, n, 0)
  {
    assert Exec([]) == Common.Some(INITIAL);
    s := ReachNext(INITIAL, SetToken(true));
    assert s.phase == map[] && s.retried == {};
    var i := 0;
    while i < n
      invariant i <= n && Worst(s, i, 0)
    {
      s := WorstIssue(s, i);
      i := i + 1;
    }
  }

  /** Round k+1 is under way: request k refreshes, k+1..j-1 wait for it, the others are on their way. */
  ghost predicate MidRound(s: State, n: nat, k: nat, j: nat) {
    && Reachable(s) && k < j <= n
    && Phases(s.phase, n, k, true, j) && UpTo(s.retried, 0, k + 1)
    && s.isRefreshing && s.rounds == k + 1 && k + 1 in s.inFlight && k + 1 in s.initiator && s.initiator[k + 1] == k
    && UpTo(WaitersIn(s.failedQueue), k + 1, j) && |s.failedQueue| == j - k - 1
    && |s.phase| == n && s.sends == n + Budget(n, k)
  }

  lemma WaitersExtend(queue: seq<Waiter>, w: Waiter)
    ensures WaitersIn(queue + [w]) == WaitersIn(queue) + {w.request}
  {
    assert w in queue + [w];
    assert forall v | v in queue :: v in queue + [w];
  }

  lemma PhaseRefreshing(phase: map<RequestId, Phase>, n: nat, k: nat)
    requires Phases(phase, n, k, false, 0) && k < n
    ensures phase[k] == Sent && Phases(phase[k := Refreshing], n, k, true, k + 1) && phase[k := Refreshing].Keys == phase.Keys
  {
  }

  lemma RoundBegins(s: State, n: nat, k: nat) returns (s': State)
    requires Worst(s, n, k) && k < n
    ensures MidRound(s', n, k, k + 1)
  {
    PhaseRefreshing(s.phase, n, k);
    s' := ReachNext(s, Answer(k, Unauthorized));
    assert s'.failedQueue == [] && WaitersIn([]) == {};
    assert UpTo(s.retried + {k}, 0, k + 1);
  }

  lemma PhaseQueued(phase: map<RequestId, Phase>, n: nat, k: nat, j: nat)
    requires Phases(phase, n, k, true, j) && k < j < n
    ensures phase[j] == Sent && Phases(phase[j := Queued], n, k, true, j + 1) && phase[j := Queued].Keys == phase.Keys
  {
  }

  lemma QueueGrows(queue: seq<Waiter>, k: nat, j: nat, round: nat)
    requires UpTo(WaitersIn(queue), k + 1, j) && k < j
    ensures UpTo(WaitersIn(queue + [Waiter(j, round)]), k + 1, j + 1)
  {
    WaitersExtend(queue, Waiter(j, round));
  }

  lemma RoundQueues(s: State, n: nat, k: nat, j: nat) returns (s': State)
    requires MidRound(s, n, k, j) && j < n
    ensures MidRound(s', n, k, j + 1)
  {
    PhaseQueued(s.phase, n, k, j);
    QueueGrows(s.failedQueue, k, j, s.rounds);
    assert j !in s.retried;
    s' := ReachNext(s, Answer(j, Unauthorized));
  }

  /** The refresh of round k+1 succeeded: its initiator and everybody who waited is on the way again. */
  ghost predicate Resent(s: State, n: nat, k: nat) {
    && Reachable(s) && k < n
    && Phases(s.phase, n, k, false, 0) && UpTo(s.retried, 0, k + 1)
    && !s.isRefreshing && s.failedQueue == [] && s.rounds == k + 1 && s.hasToken
    && |s.phase| == n && s.sends == n + Budget(n, k) + n - k
  }

  lemma RoundResends(s: State, n: nat, k: nat) returns (s': State)
    requires MidRound(s, n, k, n)
    ensures Resent(s', n, k)
  {
    s' := ReachNext(s, RefreshAnswer(k + 1, true, true));
    assert s'.phase.Keys == s.phase.Keys;
  }

  lemma PhaseFailed(phase: map<RequestId, Phase>, n: nat, k: nat)
    requires Phases(phase, n, k, false, 0) && k < n
    ensures phase[k] == Sent && Phases(phase[k := Finished(false)], n, k + 1, false, 0)
    ensures phase[k := Finished(false)].Keys == phase.Keys
  {
  }

  lemma RoundEnds(s: State, n: nat, k: nat) returns (s': State)
    requires Resent(s, n, k)
    ensures Worst(s', n, k + 1)
  {
    PhaseFailed(s.phase, n, k);
    assert k in s.retried;
    s' := ReachNext(s, Answer(k, Unauthorized));
  }

  /** For every n some run makes exactly n refresh POSTs and n + n(n+1)/2 sends. */
  lemma BoundAttained(n: nat) returns (s: State)
    ensures Reachable(s) && |s.phase| == n
    ensures s.rounds == n && 2 * s.sends == 2 * n + n * (n + 1)
  {
    s := WorstStart(n);
    var k := 0;
    while k < n
      invariant k <= n && Worst(s, n, k)
    {
      s := RoundBegins(s, n, k);
      var j := k + 1;
      while j < n
        invariant k < j <= n && MidRound(s, n, k, j)
      {
        s := RoundQueues(s, n, k, j);
        j := j + 1;
      }
      s := RoundResends(s, n, k);
      s := RoundEnds(s, n, k);
      k := k + 1;
    }
    FullBudget(n);
  }

  // ------------------------------------------------------------------ the interceptor

  /** Settling the queue and then the initiator moves all of them. */
  lemma PhaseSettled(phase: map<RequestId, Phase>, others: set<RequestId>, me: RequestId, now: Phase)
    requires me in phase
    ensures (map r | r in phase :: if r in others then now else phase[r])[me := now]
      == map r | r in phase :: if r == me || r in others then now else phase[r]
  {
  }

  /** The module variables of the client, and the handlers that change them. */
  class ApiClient {
    var phase: map<RequestId, Phase>
    var retried: set<RequestId>
    var isRefreshing: bool
    var failedQueue: seq<Waiter>
    var inFlight: set<nat>
    var rounds: nat
    var initiator: map<nat, RequestId>
    var hasToken: bool
    var sends: nat
    var turns: nat
    var queued: seq<Waiter>
    var settled: seq<Settlement>

    function Current(): State
      reads this
    {
      State(phase, retried, isRefreshing, failedQueue, inFlight, rounds, initiator, hasToken, sends, turns,
            queued, settled)
    }

    constructor ()
      ensures Current() == INITIAL
    {
      phase, retried, isRefreshing, failedQueue := map[], {}, false, [];
      inFlight, rounds, initiator, hasToken := {}, 0, map[], false;
      sends, turns, queued, settled := 0, 0, [], [];
    }

    /** The response interceptor up to its first await. */
    method OnResponse(r: RequestId, reply: Reply)
      requires r in phase
      modifies this
      ensures Current() == OnAnswer(old(Current()), r, reply)
    {
      if reply == Unauthorized && r !in retried {
        if isRefreshing {
          failedQueue := failedQueue + [Waiter(r, rounds)];
          queued := queued + [Waiter(r, rounds)];
          phase := phase[r := Queued];
          return;
        }
        retried := retried + {r};
        isRefreshing := true;
        if !hasToken {
          isRefreshing := false;
          phase := phase[r := Finished(false)];
          return;
        }
        rounds := rounds + 1;
        inFlight := inFlight + {rounds};
        initiator := initiator[rounds := r];
        phase := phase[r := Refreshing];
        return;
      }
      phase := phase[r := Finished(reply == Success)];
    }

    /** failedQueue.forEach(resolve or reject); a resolved waiter sends its request again. */
    method ProcessQueue(round: nat, ok: bool)
      modifies this`failedQueue, this`settled, this`phase, this`sends
      ensures failedQueue == [] && settled == old(settled) + Settlements(old(failedQueue), round, ok)
      ensures phase == map r | r in old(phase) ::
        if r in WaitersIn(old(failedQueue)) then (if ok then Sent else Finished(false)) else old(phase)[r]
      ensures sends == old(sends) + if ok then |old(failedQueue)| else 0
    {
      var i := 0;
      while i < |failedQueue|
        invariant 0 <= i <= |failedQueue| && failedQueue == old(failedQueue)
        invariant settled == old(settled) + Settlements(failedQueue[..i], round, ok)
        invariant phase == map r | r in old(phase) ::
          if r in WaitersIn(failedQueue[..i]) then (if ok then Sent else Finished(false)) else old(phase)[r]
        invariant sends == old(sends) + if ok then i else 0
      {
        var prom := failedQueue[i];
        assert failedQueue[..i + 1] == failedQueue[..i] + [prom];
        WaitersExtend(failedQueue[..i], prom);
        settled := settled + [Settlement(prom, round, ok)];
        if prom.request in phase {
          phase := phase[prom.request := if ok then Sent else Finished(false)];
        }
        if ok {
          sends := sends + 1;
        }
        i := i + 1;
      }
      assert failedQueue[..i] == failedQueue;
      failedQueue := [];
    }

    /** The interceptor after the refresh POST came back. */
    method OnRefreshReply(round: nat, ok: bool, tokenStored: bool)
      requires round in initiator && initiator[round] in phase
      modifies this
      ensures Current() == OnRefreshAnswer(old(Current()), round, ok, tokenStored)
    {
      var me := initiator[round];
      inFlight := inFlight - {round};
      hasToken := ok && tokenStored;
      ProcessQueue(round, ok);
      PhaseSettled(old(phase), WaitersIn(old(failedQueue)), me, if ok then Sent else Finished(false));
      phase := phase[me := if ok then Sent else Finished(false)];
      if ok {
        sends := sends + 1;
      }
      isRefreshing := false;
    }
  }
}
