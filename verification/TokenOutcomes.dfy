/** How requests end: every way a request can succeed or fail, by the answers and refresh replies of a run. */
module TokenOutcomes {
  import Common
  import opened TokenRefresh

  /** The state of a run before its action k, or at its end. */
  function StateAt(acts: seq<Action>, k: nat): State
    requires Exec(acts).Some? && k <= |acts|
  {
    PrefixRuns(acts, k);
    Exec(acts[..k]).value
  }

  lemma PrefixRuns(acts: seq<Action>, k: nat)
    requires Exec(acts).Some? && k <= |acts|
    ensures Exec(acts[..k]).Some?
  {
    Common.PrefixHolds((s: seq<Action>) => Exec(s).Some?, acts, k);
  }

  lemma StepAt(acts: seq<Action>, k: nat)
    requires Exec(acts).Some? && k < |acts|
    ensures Enabled(StateAt(acts, k), acts[k]) && StateAt(acts, k + 1) == Next(StateAt(acts, k), acts[k])
    ensures FlightInv(StateAt(acts, k))
  {
    var upto := acts[..k + 1];
    PrefixRuns(acts, k + 1);
    PrefixRuns(acts, k);
    SingleFlightAlways(acts[..k]);
    assert upto[..|upto| - 1] == acts[..k] && upto[|upto| - 1] == acts[k];
  }

  lemma FrontState(acts: seq<Action>, k: nat)
    requires Exec(acts).Some? && k < |acts|
    ensures Exec(acts[..|acts| - 1]).Some? && StateAt(acts[..|acts| - 1], k) == StateAt(acts, k)
  {
    assert acts[..|acts| - 1][..k] == acts[..k];
  }

  // ------------------------------------------------------------------ flags and token, by history

  /** The request was answered 401 while no refresh was under way: it has had its one chance to start a refresh. */
  ghost predicate HadItsRetry(acts: seq<Action>, k: nat, r: RequestId)
    requires Exec(acts).Some? && k <= |acts|
  {
    exists j: nat :: j < k && acts[j] == Answer(r, Unauthorized) && !StateAt(acts, j).isRefreshing
  }

  /** The refresh token is there, as the last login, logout or refresh reply left it. */
  function TokenStored(acts: seq<Action>): bool {
    acts != [] && (
      var a := acts[|acts| - 1];
      match a
      case SetToken(present) => present
      case RefreshAnswer(_, ok, hasToken) => ok && hasToken
      case _ => TokenStored(acts[..|acts| - 1]))
  }

  /** A failed refresh leaves no token; a good one the token that the server sent. */
  lemma {:induction false} TokenIsAsStored(acts: seq<Action>)
    requires Exec(acts).Some?
    ensures Exec(acts).value.hasToken == TokenStored(acts)
  {
    if acts != [] { TokenIsAsStored(acts[..|acts| - 1]); }
  }

  lemma RetriedGrows(s: State, a: Action, r: RequestId)
    requires Enabled(s, a)
    ensures r in Next(s, a).retried <==> r in s.retried || (a == Answer(r, Unauthorized) && !s.isRefreshing)
  {
  }

  lemma {:induction false} FlagIsHistory(acts: seq<Action>, k: nat, r: RequestId)
    requires Exec(acts).Some? && k <= |acts|
    ensures r in StateAt(acts, k).retried <==> HadItsRetry(acts, k, r)
  {
    if k > 0 {
      FlagIsHistory(acts, k - 1, r);
      StepAt(acts, k - 1);
      RetriedGrows(StateAt(acts, k - 1), acts[k - 1], r);
      if HadItsRetry(acts, k - 1, r) {
        var j: nat :| j < k - 1 && acts[j] == Answer(r, Unauthorized) && !StateAt(acts, j).isRefreshing;
        assert j < k;
      }
    }
  }

  // ------------------------------------------------------------------------ how requests end

  /** The request started this refresh, or waits for it. */
  predicate DependsOn(s: State, round: nat, r: RequestId) {
    (round in s.initiator && s.initiator[round] == r) || exists w :: w in s.failedQueue && w.request == r
  }

  /** Action k is one of the four ways for the request to fail. */
  ghost predicate FailsAt(acts: seq<Action>, k: nat, r: RequestId)
    requires Exec(acts).Some? && k < |acts|
  {
    var s := StateAt(acts, k);
    || acts[k] == Answer(r, OtherError)
    || (acts[k] == Answer(r, Unauthorized) && HadItsRetry(acts, k, r))
    || (acts[k] == Answer(r, Unauthorized) && !s.isRefreshing && !TokenStored(acts[..k]))
    || (acts[k].RefreshAnswer? && !acts[k].ok && DependsOn(s, acts[k].round, r))
  }

  /** One step, in terms of the flags. */
  predicate Fails(s: State, a: Action, r: RequestId) {
    || a == Answer(r, OtherError)
    || (a == Answer(r, Unauthorized) && (r in s.retried || (!s.isRefreshing && !s.hasToken)))
    || (a.RefreshAnswer? && !a.ok && DependsOn(s, a.round, r))
  }

  lemma StepEnds(s: State, a: Action, r: RequestId)
    requires FlightInv(s) && Enabled(s, a)
    ensures var s' := Next(s, a);
      var was, now := if r in s.phase then Common.Some(s.phase[r]) else Common.None,
                      if r in s'.phase then Common.Some(s'.phase[r]) else Common.None;
      && (now == Common.Some(Finished(true)) <==> was == Common.Some(Finished(true)) || a == Answer(r, Success))
      && (now == Common.Some(Finished(false)) <==> was == Common.Some(Finished(false)) || Fails(s, a, r))
  {
    if a.RefreshAnswer? { RefreshEnds(s, a, r); }
  }

  lemma RefreshEnds(s: State, a: Action, r: RequestId)
    requires FlightInv(s) && Enabled(s, a) && a.RefreshAnswer?
    ensures DependsOn(s, a.round, r) ==>
      r in s.phase && (s.phase[r] == Queued || s.phase[r] == Refreshing)
      && Next(s, a).phase[r] == if a.ok then Sent else Finished(false)
    ensures !DependsOn(s, a.round, r) ==>
      (r in Next(s, a).phase <==> r in s.phase) && (r in s.phase ==> Next(s, a).phase[r] == s.phase[r])
  {
    assert r in WaitersIn(s.failedQueue) <==> exists w :: w in s.failedQueue && w.request == r;
  }

  ghost predicate Ended(s: State, r: RequestId, ok: bool) {
    r in s.phase && s.phase[r] == Finished(ok)
  }

  lemma FailsIff(acts: seq<Action>, k: nat, r: RequestId)
    requires Exec(acts).Some? && k < |acts|
    ensures FailsAt(acts, k, r) <==> Fails(StateAt(acts, k), acts[k], r)
  {
    FlagIsHistory(acts, k, r);
    PrefixRuns(acts, k);
    TokenIsAsStored(acts[..k]);
  }

  lemma EndsAt(acts: seq<Action>, k: nat, r: RequestId)
    requires Exec(acts).Some? && k < |acts|
    ensures Ended(StateAt(acts, k + 1), r, true) <==> Ended(StateAt(acts, k), r, true) || acts[k] == Answer(r, Success)
    ensures Ended(StateAt(acts, k + 1), r, false) <==> Ended(StateAt(acts, k), r, false) || FailsAt(acts, k, r)
  {
    StepAt(acts, k);
    FailsIff(acts, k, r);
    StepEnds(StateAt(acts, k), acts[k], r);
  }

  ghost predicate SucceededBefore(acts: seq<Action>, n: nat, r: RequestId)
    requires n <= |acts|
  {
    exists k: nat :: k < n && acts[k] == Answer(r, Success)
  }

  ghost predicate FailedBefore(acts: seq<Action>, n: nat, r: RequestId)
    requires Exec(acts).Some? && n <= |acts|
  {
    exists k: nat :: k < n && FailsAt(acts, k, r)
  }

  lemma {:induction false} EndsUpTo(acts: seq<Action>, n: nat, r: RequestId)
    requires Exec(acts).Some? && n <= |acts|
    ensures Ended(StateAt(acts, n), r, true) <==> SucceededBefore(acts, n, r)
    ensures Ended(StateAt(acts, n), r, false) <==> FailedBefore(acts, n, r)
  {
    if n > 0 {
      EndsUpTo(acts, n - 1, r);
      EndsAt(acts, n - 1, r);
      if SucceededBefore(acts, n - 1, r) {
        var k: nat :| k < n - 1 && acts[k] == Answer(r, Success);
        assert k < n;
      }
      if FailedBefore(acts, n - 1, r) {
        var k: nat :| k < n - 1 && FailsAt(acts, k, r);
        assert k < n;
      }
    }
  }

  /**
   How requests end, over every run. A request has been handed its response if and
   only if it was answered well. It has been rejected if and only if it was answered
   with another error, or with a 401 after its retry, or with a 401 while no refresh
   was under way and no token was stored, or the refresh it had started or was
   waiting for failed.
   */
  lemma RequestsEndAsAnswered(acts: seq<Action>, r: RequestId)
    requires Exec(acts).Some?
    ensures Ended(Exec(acts).value, r, true) <==> exists k: nat :: k < |acts| && acts[k] == Answer(r, Success)
    ensures Ended(Exec(acts).value, r, false) <==> exists k: nat :: k < |acts| && FailsAt(acts, k, r)
  {
    assert acts[..|acts|] == acts;
    EndsUpTo(acts, |acts|, r);
  }

  // --------------------------------------------------------------------- settlements

  /** The reply that a refresh got, if it has got one. */
  function ReplyTo(acts: seq<Action>, round: nat): Common.Option<bool> {
    if acts == [] then Common.None
    else
      var a := acts[|acts| - 1];
      if a.RefreshAnswer? && a.round == round then Common.Some(a.ok) else ReplyTo(acts[..|acts| - 1], round)
  }

  lemma SettledGrows(s: State, a: Action)
    requires Enabled(s, a)
    ensures var s' := Next(s, a);
      if a.RefreshAnswer? then s'.settled == s.settled + Settlements(s.failedQueue, a.round, a.ok) else s'.settled == s.settled
  {
  }

  ghost predicate RoundsAnswered(s: State, acts: seq<Action>) {
    && (forall i | 0 <= i < |s.settled| :: ReplyTo(acts, s.settled[i].refresh) == Common.Some(s.settled[i].resolved))
    && (forall k | k in s.inFlight || k > s.rounds :: ReplyTo(acts, k) == Common.None)
  }

  lemma {:induction false} RoundsAreAnsweredOnce(acts: seq<Action>)
    requires Exec(acts).Some?
    ensures RoundsAnswered(Exec(acts).value, acts)
  {
    if acts != [] {
      var front, a := acts[..|acts| - 1], acts[|acts| - 1];
      var s := Exec(front).value;
      RoundsAreAnsweredOnce(front);
      SingleFlightAlways(front);
      SettledGrows(s, a);
    }
  }

  /** A waiter is resolved if and only if the refresh that settled it succeeded. */
  lemma SettledByReply(acts: seq<Action>, i: nat)
    requires Exec(acts).Some? && i < |Exec(acts).value.settled|
    ensures var it := Exec(acts).value.settled[i]; ReplyTo(acts, it.refresh) == Common.Some(it.resolved)
  {
    RoundsAreAnsweredOnce(acts);
  }
}
