/**
 The Redis limiter: a sorted set of requests per key, trimmed and expired by
 one Lua script. Time is in milliseconds; scores and windows are whole seconds.
 */
module SlidingWindow {
  import opened Common

  /** The key in Redis; an empty sorted set does not exist. */
  datatype Key = Absent | Present(entries: map<Uuid, int>, expireAt: Option<int>)

  datatype Request = Request(at: nat, member: Uuid)

  function Second(r: Request): nat {
    r.at / 1000
  }

  /** Redis drops a key once its clock has passed the deadline. */
  function Alive(k: Key, at: int): Key {
    if k.Present? && k.expireAt.Some? && at > k.expireAt.value then Absent else k
  }

  function Entries(k: Key): map<Uuid, int> {
    if k.Present? then k.entries else map[]
  }

  function Deadline(k: Key): Option<int> {
    if k.Present? then k.expireAt else None
  }

  /** ZADD, then ZREMRANGEBYSCORE 0 (now - window). */
  function Recorded(k: Key, r: Request, window: nat): map<Uuid, int> {
    var added := Entries(Alive(k, r.at))[r.member := Second(r)];
    map m | m in added && !(0 <= added[m] <= Second(r) - window) :: added[m]
  }

  /** The whole script: the key afterwards, and whether the request is let through. */
  function Script(k: Key, r: Request, limit: int, window: nat): (Key, bool) {
    var kept := Recorded(k, r, window);
    if kept == map[] then (Absent, 0 <= limit)
    else if |kept| > limit then (Present(kept, Deadline(Alive(k, r.at))), false)
    else (Present(kept, Some(r.at + 1000 * window)), true)
  }

  // ------------------------------------------------------------------- runs

  function Run(reqs: seq<Request>, limit: int, window: nat): Key {
    if reqs == [] then Absent
    else Script(Run(reqs[..|reqs| - 1], limit, window), reqs[|reqs| - 1], limit, window).0
  }

  predicate Admits(reqs: seq<Request>, i: nat, limit: int, window: nat)
    requires i < |reqs|
  {
    Script(Run(reqs[..i], limit, window), reqs[i], limit, window).1
  }

  /** The clock does not run backwards, and each request brings a member not used before. */
  ghost predicate WellFormed(reqs: seq<Request>) {
    reqs == [] || (
      var n := |reqs| - 1;
      && WellFormed(reqs[..n])
      && (n > 0 ==> reqs[n - 1].at <= reqs[n].at)
      && (forall i | 0 <= i < n :: reqs[i].member != reqs[n].member))
  }

  lemma {:induction false} EarlierAndDistinct(reqs: seq<Request>, i: nat, j: nat)
    requires WellFormed(reqs) && i < j < |reqs|
    ensures reqs[i].at <= reqs[j].at && reqs[i].member != reqs[j].member
  {
    var n := |reqs| - 1;
    if j < n {
      EarlierAndDistinct(reqs[..n], i, j);
    } else if i < n - 1 {
      EarlierAndDistinct(reqs[..n], i, n - 1);
    }
  }

  /** The request was admitted and still counts at second `now`. */
  ghost predicate CountsAt(reqs: seq<Request>, i: nat, now: int, limit: int, window: nat)
    requires i < |reqs|
  {
    Admits(reqs, i, limit, window) && Second(reqs[i]) > now - window
  }

  /** The key still records the request and will not expire while it counts. */
  ghost predicate Holds(k: Key, r: Request, window: nat) {
    && k.Present? && r.member in k.entries && k.entries[r.member] == Second(r)
    && k.expireAt.Some? && k.expireAt.value >= r.at + 1000 * window
  }

  lemma PrefixAdmits(reqs: seq<Request>, n: nat, i: nat, limit: int, window: nat)
    requires i < n <= |reqs|
    ensures Admits(reqs[..n], i, limit, window) == Admits(reqs, i, limit, window)
  {
    assert reqs[..n][..i] == reqs[..i];
  }

  /** One script run keeps what still counts: neither expiry nor trimming drops it. */
  lemma ScriptHolds(k: Key, r: Request, q: Request, limit: int, window: nat)
    requires Holds(k, q, window) && q.at <= r.at && q.member != r.member
    requires Second(q) > Second(r) - window
    ensures Holds(Script(k, r, limit, window).0, q, window)
  {
    assert Alive(k, r.at) == k;
    assert q.member in Recorded(k, r, window);
  }

  lemma AdmittedHolds(k: Key, r: Request, limit: int, window: nat)
    requires Script(k, r, limit, window).1 && window > 0
    ensures Holds(Script(k, r, limit, window).0, r, window)
  {
    assert r.member in Recorded(k, r, window);
  }

  lemma ClockMovesOn(reqs: seq<Request>)
    requires WellFormed(reqs) && |reqs| > 1
    ensures Second(reqs[|reqs| - 2]) <= Second(reqs[|reqs| - 1])
  {
  }

  lemma LastHeld(reqs: seq<Request>, limit: int, window: nat)
    requires reqs != [] && Admits(reqs, |reqs| - 1, limit, window) && window > 0
    ensures Holds(Run(reqs, limit, window), reqs[|reqs| - 1], window)
  {
    AdmittedHolds(Run(reqs[..|reqs| - 1], limit, window), reqs[|reqs| - 1], limit, window);
  }

  lemma StillHeld(reqs: seq<Request>, i: nat, limit: int, window: nat)
    requires WellFormed(reqs) && i < |reqs| - 1 && Second(reqs[i]) > Second(reqs[|reqs| - 1]) - window
    requires Holds(Run(reqs[..|reqs| - 1], limit, window), reqs[i], window)
    ensures Holds(Run(reqs, limit, window), reqs[i], window)
  {
    var n := |reqs| - 1;
    EarlierAndDistinct(reqs, i, n);
    ScriptHolds(Run(reqs[..n], limit, window), reqs[n], reqs[i], limit, window);
  }

  /** Expiry, refreshed only on admission, never drops an admitted entry that is still inside the window. */
  lemma {:induction false} AdmittedEntriesSurvive(reqs: seq<Request>, i: nat, limit: int, window: nat)
    requires WellFormed(reqs) && i < |reqs|
    requires CountsAt(reqs, i, Second(reqs[|reqs| - 1]), limit, window)
    ensures Holds(Run(reqs, limit, window), reqs[i], window)
  {
    var n := |reqs| - 1;
    if i == n {
      LastHeld(reqs, limit, window);
    } else {
      PrefixAdmits(reqs, n, i, limit, window);
      ClockMovesOn(reqs);
      AdmittedEntriesSurvive(reqs[..n], i, limit, window);
      StillHeld(reqs, i, limit, window);
    }
  }

  // ---------------------------------------------------------- the counting bound

  /** The admitted requests with from < second <= to. */
  ghost function AdmittedIn(reqs: seq<Request>, from: int, to: int, limit: int, window: nat): set<nat> {
    set i: nat | i < |reqs| && Admits(reqs, i, limit, window) && from < Second(reqs[i]) <= to
  }

  ghost function MembersOf(reqs: seq<Request>, admitted: set<nat>): set<Uuid>
    requires forall i | i in admitted :: i < |reqs|
  {
    set i | i in admitted :: reqs[i].member
  }

  lemma OtherMember(reqs: seq<Request>, i: nat, j: nat)
    requires WellFormed(reqs) && i < |reqs| && j < |reqs| && i != j
    ensures reqs[i].member != reqs[j].member
  {
    if j < i { EarlierAndDistinct(reqs, j, i); } else { EarlierAndDistinct(reqs, i, j); }
  }

  lemma {:induction false} MembersCount(reqs: seq<Request>, admitted: set<nat>)
    requires WellFormed(reqs) && forall i | i in admitted :: i < |reqs|
    ensures |MembersOf(reqs, admitted)| == |admitted|
  {
    if admitted != {} {
      var i :| i in admitted;
      var rest := admitted - {i};
      MembersCount(reqs, rest);
      forall j | j in rest ensures reqs[j].member != reqs[i].member { OtherMember(reqs, i, j); }
      assert MembersOf(reqs, admitted) == MembersOf(reqs, rest) + {reqs[i].member};
      assert reqs[i].member !in MembersOf(reqs, rest);
    }
  }

  lemma SubsetCount(a: set<Uuid>, b: set<Uuid>)
    requires a <= b
    ensures |a| <= |b|
  {
    assert |b| == |a| + |b - a| by { assert b == a + (b - a); }
  }

  lemma {:induction false} LastOf(admitted: set<nat>) returns (last: nat)
    requires admitted != {}
    ensures last in admitted && forall i | i in admitted :: i <= last
  {
    last :| last in admitted;
    var rest := admitted - {last};
    if rest != {} {
      assert forall i | i in admitted :: i == last || i in rest;
      var other := LastOf(rest);
      last := if other > last then other else last;
    } else {
      assert admitted == {last};
    }
  }

  lemma {:induction false} PrefixWellFormed(reqs: seq<Request>, n: nat)
    requires WellFormed(reqs) && n <= |reqs|
    ensures WellFormed(reqs[..n])
  {
    if n == |reqs| {
      assert reqs[..n] == reqs;
    } else {
      PrefixWellFormed(reqs[..|reqs| - 1], n);
      assert reqs[..|reqs| - 1][..n] == reqs[..n];
    }
  }

  /** When the last of them was admitted, the key recorded all admitted requests of its window. */
  lemma AdmittedAreRecorded(reqs: seq<Request>, last: nat, i: nat, limit: int, window: nat)
    requires WellFormed(reqs) && i <= last < |reqs|
    requires CountsAt(reqs, i, Second(reqs[last]), limit, window)
    ensures reqs[i].member in Entries(Run(reqs[..last + 1], limit, window))
  {
    var upto := reqs[..last + 1];
    PrefixWellFormed(reqs, last + 1);
    PrefixAdmits(reqs, last + 1, i, limit, window);
    AdmittedEntriesSurvive(upto, i, limit, window);
  }

  lemma AdmissionIsWithinLimit(reqs: seq<Request>, last: nat, limit: nat, window: nat)
    requires last < |reqs| && Admits(reqs, last, limit, window)
    ensures |Entries(Run(reqs[..last + 1], limit, window))| <= limit
  {
    assert reqs[..last + 1][..last] == reqs[..last];
  }

  /**
   For any sequence of requests on a non-decreasing clock, key expiry included,
   at most `limit` requests are admitted in any `window` whole seconds (to - window, to].
   */
  lemma SlidingWindowBound(reqs: seq<Request>, to: int, limit: nat, window: nat)
    requires WellFormed(reqs)
    ensures |AdmittedIn(reqs, to - window, to, limit, window)| <= limit
  {
    var admitted := AdmittedIn(reqs, to - window, to, limit, window);
    if admitted != {} {
      var last := LastOf(admitted);
      var recorded := Entries(Run(reqs[..last + 1], limit, window)).Keys;
      forall i | i in admitted ensures reqs[i].member in recorded {
        AdmittedAreRecorded(reqs, last, i, limit, window);
      }
      MembersCount(reqs, admitted);
      SubsetCount(MembersOf(reqs, admitted), recorded);
      AdmissionIsWithinLimit(reqs, last, limit, window);
    }
  }

  // -------------------------------------------------------- the bound in wall-clock time

  /** The admitted requests with from < time <= to, in milliseconds. */
  ghost function AdmittedBetween(reqs: seq<Request>, from: int, to: int, limit: int, window: nat): set<nat> {
    set i: nat | i < |reqs| && Admits(reqs, i, limit, window) && from < reqs[i].at <= to
  }

  /** The set has every admitted request with from < second <= to. */
  ghost predicate HasAll(some: set<nat>, reqs: seq<Request>, from: int, to: int, limit: int, window: nat) {
    forall i: nat | i < |reqs| && Admits(reqs, i, limit, window) && from < Second(reqs[i]) <= to :: i in some
  }

  lemma OneWindow(reqs: seq<Request>, to: int, limit: nat, window: nat) returns (some: set<nat>)
    requires WellFormed(reqs)
    ensures HasAll(some, reqs, to - window, to, limit, window) && |some| <= limit
  {
    some := AdmittedIn(reqs, to - window, to, limit, window);
    SlidingWindowBound(reqs, to, limit, window);
  }

  /** An interval of wall-clock time lies within two windows of whole seconds. */
  lemma InTwoWindows(reqs: seq<Request>, to: int, limit: nat, window: nat, older: set<nat>, newer: set<nat>)
    requires HasAll(older, reqs, to / 1000 - window - window, to / 1000 - window, limit, window)
    requires HasAll(newer, reqs, to / 1000 - window, to / 1000, limit, window)
    ensures AdmittedBetween(reqs, to - 1000 * window, to, limit, window) <= older + newer
  {
    var all := AdmittedBetween(reqs, to - 1000 * window, to, limit, window);
    forall i | i in all ensures i in older + newer {
      assert to / 1000 - window <= Second(reqs[i]) <= to / 1000 && window > 0;
    }
  }

  lemma UnionCount(all: set<nat>, older: set<nat>, newer: set<nat>)
    requires all <= older + newer
    ensures |all| <= |older| + |newer|
  {
    SubsetCount(all, older + newer);
    assert |older + newer| == |older| + |newer - older| by { assert older + newer == older + (newer - older); }
    SubsetCount(newer - older, newer);
  }

  /** `window` seconds of wall-clock time touch window + 1 clock seconds, so up to twice the limit is admitted. */
  lemma WallClockBound(reqs: seq<Request>, to: int, limit: nat, window: nat)
    requires WellFormed(reqs)
    ensures |AdmittedBetween(reqs, to - 1000 * window, to, limit, window)| <= 2 * limit
  {
    var older := OneWindow(reqs, to / 1000 - window, limit, window);
    var newer := OneWindow(reqs, to / 1000, limit, window);
    InTwoWindows(reqs, to, limit, window, older, newer);
    UnionCount(AdmittedBetween(reqs, to - 1000 * window, to, limit, window), older, newer);
  }

  /** `limit` requests at the end of second 0, and as many at the start of second `window`. */
  function Burst(limit: nat, window: nat, n: nat): (reqs: seq<Request>)
    ensures |reqs| == n
    ensures forall i | 0 <= i < n :: reqs[i] == Request(if i < limit then 999 else 1000 * window, i)
  {
    seq(n, i requires 0 <= i < n => Request(if i < limit then 999 else 1000 * window, i))
  }

  /** The key holds the members lo..hi, all of one second. */
  ghost predicate Filled(k: Key, lo: nat, hi: nat, second: int, deadline: int) {
    && k.Present? && k.expireAt == Some(deadline) && |k.entries| == hi - lo
    && (forall m: nat :: m in k.entries <==> lo <= m < hi)
    && (forall m | m in k.entries :: k.entries[m] == second)
  }

  /** One more request of the same second, below the limit. */
  lemma FillsUp(k: Key, lo: nat, hi: nat, r: Request, limit: nat, window: nat)
    requires lo < hi && hi - lo < limit && window > 0 && r.member == hi
    requires Filled(k, lo, hi, Second(r), r.at + 1000 * window)
    ensures var (k', admitted) := Script(k, r, limit, window);
      admitted && Filled(k', lo, hi + 1, Second(r), r.at + 1000 * window)
  {
    assert Recorded(k, r, window) == k.entries[r.member := Second(r)];
  }

  /** The first request, or the first one after everything recorded has left the window. */
  lemma StartsOver(k: Key, r: Request, limit: nat, window: nat)
    requires limit > 0 && window > 0
    requires k == Absent || forall m | m in k.entries :: 0 <= k.entries[m] <= Second(r) - window
    ensures var (k', admitted) := Script(k, r, limit, window);
      admitted && Filled(k', r.member, r.member + 1, Second(r), r.at + 1000 * window)
  {
    assert Recorded(k, r, window) == map[r.member := Second(r)];
  }

  /** The key after n requests of the burst. */
  ghost predicate AfterBurst(k: Key, limit: nat, window: nat, n: nat) {
    if n == 0 then k == Absent
    else if n <= limit then Filled(k, 0, n, 0, 999 + 1000 * window)
    else Filled(k, limit, n, window, 2000 * window)
  }

  lemma BurstPrefix(limit: nat, window: nat, n: nat, i: nat)
    requires i <= n
    ensures Burst(limit, window, n)[..i] == Burst(limit, window, i)
  {
  }

  lemma {:induction false} BurstWellFormed(limit: nat, window: nat, n: nat)
    requires window > 0
    ensures WellFormed(Burst(limit, window, n))
  {
    if n > 0 {
      BurstPrefix(limit, window, n, n - 1);
      BurstWellFormed(limit, window, n - 1);
    }
  }

  lemma BurstStep(k: Key, limit: nat, window: nat, n: nat)
    requires n < 2 * limit && window > 0 && AfterBurst(k, limit, window, n)
    ensures var (k', admitted) := Script(k, Burst(limit, window, n + 1)[n], limit, window);
      admitted && AfterBurst(k', limit, window, n + 1)
  {
    var r := Burst(limit, window, n + 1)[n];
    if n == 0 || n == limit {
      StartsOver(k, r, limit, window);
    } else {
      FillsUp(k, if n < limit then 0 else limit, n, r, limit, window);
    }
  }

  lemma {:induction false} BurstRun(limit: nat, window: nat, n: nat)
    requires n <= 2 * limit && window > 0
    ensures AfterBurst(Run(Burst(limit, window, n), limit, window), limit, window, n)
  {
    if n > 0 {
      BurstPrefix(limit, window, n, n - 1);
      BurstRun(limit, window, n - 1);
      BurstStep(Run(Burst(limit, window, n - 1), limit, window), limit, window, n - 1);
    }
  }

  lemma BurstAdmitted(limit: nat, window: nat, n: nat, i: nat)
    requires i < n <= 2 * limit && window > 0
    ensures Admits(Burst(limit, window, n), i, limit, window)
  {
    BurstPrefix(limit, window, n, i);
    BurstRun(limit, window, i);
    BurstStep(Run(Burst(limit, window, i), limit, window), limit, window, i);
  }

  lemma {:induction false} AllBelow(numbers: set<nat>, n: nat)
    requires forall i: nat :: i in numbers <==> i < n
    ensures |numbers| == n
  {
    if n == 0 {
      assert numbers == {};
    } else {
      AllBelow(numbers - {n - 1}, n - 1);
    }
  }

  /** Twice the limit is attained, for every limit and window, in a little more than window - 1 seconds. */
  lemma TwiceTheLimitAttained(limit: nat, window: nat) returns (reqs: seq<Request>)
    requires window > 0
    ensures WellFormed(reqs)
    ensures |AdmittedBetween(reqs, 998, 1000 * window, limit, window)| == 2 * limit
  {
    reqs := Burst(limit, window, 2 * limit);
    BurstWellFormed(limit, window, 2 * limit);
    forall i: nat | i < 2 * limit { BurstAdmitted(limit, window, 2 * limit, i); }
    AllBelow(AdmittedBetween(reqs, 998, 1000 * window, limit, window), 2 * limit);
  }

  // --------------------------------------------- the intervals in which the limit holds

  /** In every interval of that many milliseconds, whatever the requests, at most `limit` are admitted. */
  ghost predicate LimitHolds(length: nat, limit: nat, window: nat) {
    forall reqs, from, to | WellFormed(reqs) && to - from == length ::
      |AdmittedBetween(reqs, from, to, limit, window)| <= limit
  }

  /** An interval that is short enough touches only `window` clock seconds. */
  lemma InOneWindow(reqs: seq<Request>, from: int, to: int, limit: nat, window: nat, some: set<nat>)
    requires HasAll(some, reqs, to / 1000 - window, to / 1000, limit, window) && to - from <= 1000 * (window - 1) + 1
    ensures AdmittedBetween(reqs, from, to, limit, window) <= some
  {
    var all := AdmittedBetween(reqs, from, to, limit, window);
    forall i | i in all ensures i in some {
      assert to - 1000 * (window - 1) <= reqs[i].at <= to;
      assert to / 1000 - window < Second(reqs[i]) <= to / 1000;
    }
  }

  lemma ShortIntervals(length: nat, limit: nat, window: nat)
    requires length <= 1000 * (window - 1) + 1
    ensures LimitHolds(length, limit, window)
  {
    forall reqs, from, to | WellFormed(reqs) && to - from == length
      ensures |AdmittedBetween(reqs, from, to, limit, window)| <= limit
    {
      var some := OneWindow(reqs, to / 1000, limit, window);
      InOneWindow(reqs, from, to, limit, window, some);
      SubsetCount(AdmittedBetween(reqs, from, to, limit, window), some);
    }
  }

  lemma LongIntervals(length: nat, limit: nat, window: nat)
    requires limit > 0 && window > 0 && length > 1000 * (window - 1) + 1
    ensures !LimitHolds(length, limit, window)
  {
    var reqs := TwiceTheLimitAttained(limit, window);
    var to := 1000 * window;
    SubsetCount(AdmittedBetween(reqs, 998, to, limit, window), AdmittedBetween(reqs, to - length, to, limit, window));
  }

  lemma NothingInNoTime(limit: nat, window: nat)
    ensures LimitHolds(0, limit, window)
  {
    forall reqs, from, to | WellFormed(reqs) && to - from == 0
      ensures |AdmittedBetween(reqs, from, to, limit, window)| <= limit
    {
      assert AdmittedBetween(reqs, from, to, limit, window) == {};
    }
  }

  /** A window of zero keeps nothing and lets everything through. */
  lemma ZeroWindow(length: nat, limit: nat)
    requires length > 0
    ensures !LimitHolds(length, limit, 0)
  {
    var n := limit + 1;
    var reqs := Burst(n, 0, n);
    AllAtOnceWellFormed(n, n);
    forall i: nat | i < n ensures Admits(reqs, i, limit, 0) { WindowZeroAdmits(reqs[..i], reqs[i], limit); }
    AllBelow(AdmittedBetween(reqs, 999 - length, 999, limit, 0), n);
  }

  lemma {:induction false} AllAtOnceWellFormed(limit: nat, n: nat)
    requires n <= limit
    ensures WellFormed(Burst(limit, 0, n))
  {
    if n > 0 {
      BurstPrefix(limit, 0, n, n - 1);
      AllAtOnceWellFormed(limit, n - 1);
    }
  }

  /** With a limit of zero and a window, everything is denied. */
  lemma ZeroLimit(length: nat, window: nat)
    requires window > 0
    ensures LimitHolds(length, 0, window)
  {
    forall reqs, from, to | WellFormed(reqs) && to - from == length
      ensures |AdmittedBetween(reqs, from, to, 0, window)| <= 0
    {
      forall i: nat | i < |reqs| ensures !Admits(reqs, i, 0, window) {
        ZeroLimitDenies(Run(reqs[..i], 0, window), reqs[i], window);
      }
      assert AdmittedBetween(reqs, from, to, 0, window) == {};
    }
  }

  lemma ZeroLimitDenies(k: Key, r: Request, window: nat)
    requires window > 0
    ensures !Script(k, r, 0, window).1
  {
    assert r.member in Recorded(k, r, window);
  }

  /**
   In wall-clock time: the limit holds in every interval of `length` milliseconds if and
   only if the interval is at most a millisecond longer than window - 1 seconds, or the
   limiter denies everything, or the interval is empty.
   */
  lemma LimitHoldsIff(length: nat, limit: nat, window: nat)
    ensures LimitHolds(length, limit, window) <==>
      length <= 1000 * (window - 1) + 1 || (limit == 0 && window > 0) || length == 0
  {
    if length == 0 {
      NothingInNoTime(limit, window);
    } else if window == 0 {
      ZeroWindow(length, limit);
    } else if limit == 0 {
      ZeroLimit(length, window);
    } else if length <= 1000 * (window - 1) + 1 {
      ShortIntervals(length, limit, window);
    } else {
      LongIntervals(length, limit, window);
    }
  }

  // -------------------------------------------------------------- who gets through

  /** The requests, admitted or denied, that fall in the window of the last one. */
  ghost function RecentMembers(reqs: seq<Request>, now: int, window: nat): set<Uuid> {
    set i | 0 <= i < |reqs| && Second(reqs[i]) > now - window :: reqs[i].member
  }

  lemma {:induction false} EntriesAreRequests(reqs: seq<Request>, limit: int, window: nat, m: Uuid)
    requires m in Entries(Run(reqs, limit, window))
    ensures exists i :: 0 <= i < |reqs| && reqs[i].member == m && Second(reqs[i]) == Run(reqs, limit, window).entries[m]
  {
    var n := |reqs| - 1;
    var front := reqs[..n];
    if m != reqs[n].member {
      EntriesAreRequests(front, limit, window, m);
    }
  }

  /** A request is admitted whenever fewer than `limit` requests of any kind were made in the window before it. */
  lemma QuietIsAdmitted(reqs: seq<Request>, r: Request, limit: nat, window: nat)
    requires |RecentMembers(reqs, Second(r), window)| < limit
    ensures Script(Run(reqs, limit, window), r, limit, window).1
  {
    var k := Run(reqs, limit, window);
    var kept := Recorded(k, r, window);
    var recent := RecentMembers(reqs, Second(r), window);
    forall m | m in kept ensures m in recent + {r.member} {
      if m != r.member {
        EntriesAreRequests(reqs, limit, window, m);
        var i :| 0 <= i < |reqs| && reqs[i].member == m && Second(reqs[i]) == k.entries[m];
        assert Second(reqs[i]) > Second(r) - window;
      }
    }
    SubsetCount(kept.Keys, recent + {r.member});
    assert |recent + {r.member}| <= |recent| + 1;
  }

  /** The last request so far that was admitted. */
  function LastAdmitted(reqs: seq<Request>, limit: int, window: nat): Option<Request> {
    if reqs == [] then None
    else
      var n := |reqs| - 1;
      if Admits(reqs, n, limit, window) then Some(reqs[n]) else LastAdmitted(reqs[..n], limit, window)
  }

  lemma NewKeyAdmits(k: Key, r: Request, limit: nat, window: nat)
    requires Alive(k, r.at) == Absent && limit > 0
    ensures Script(k, r, limit, window).1
  {
    var kept := Recorded(k, r, window);
    assert kept.Keys <= {r.member};
    SubsetCount(kept.Keys, {r.member});
  }

  lemma DenialKeepsDeadline(k: Key, r: Request, limit: nat, window: nat)
    requires k.Present? && window > 0 && limit > 0 && !Script(k, r, limit, window).1
    ensures var k' := Script(k, r, limit, window).0; k'.Present? && k'.expireAt == k.expireAt
  {
    if Alive(k, r.at) == Absent { NewKeyAdmits(k, r, limit, window); }
  }

  lemma AdmissionSetsDeadline(k: Key, r: Request, limit: int, window: nat)
    requires Script(k, r, limit, window).1 && window > 0
    ensures Deadline(Script(k, r, limit, window).0) == Some(r.at + 1000 * window)
  {
    assert r.member in Recorded(k, r, window);
  }

  /** The key expires `window` seconds after the last admission; without one it does not exist. */
  predicate ExpiresAfter(k: Key, last: Option<Request>, window: nat) {
    match last
    case None => k == Absent
    case Some(q) => Deadline(k) == Some(q.at + 1000 * window)
  }

  lemma ScriptMovesDeadline(k: Key, last: Option<Request>, r: Request, limit: nat, window: nat)
    requires window > 0 && limit > 0 && ExpiresAfter(k, last, window)
    ensures var (k', admitted) := Script(k, r, limit, window);
      ExpiresAfter(k', if admitted then Some(r) else last, window)
  {
    if Script(k, r, limit, window).1 {
      AdmissionSetsDeadline(k, r, limit, window);
    } else if k == Absent {
      NewKeyAdmits(k, r, limit, window);
    } else {
      DenialKeepsDeadline(k, r, limit, window);
    }
  }

  /** Denials record entries, but the deadline stays the one set by the last admission. */
  lemma {:induction false} DenialsKeepDeadline(reqs: seq<Request>, limit: nat, window: nat)
    requires window > 0 && limit > 0
    ensures ExpiresAfter(Run(reqs, limit, window), LastAdmitted(reqs, limit, window), window)
  {
    if reqs != [] {
      var n := |reqs| - 1;
      DenialsKeepDeadline(reqs[..n], limit, window);
      ScriptMovesDeadline(Run(reqs[..n], limit, window), LastAdmitted(reqs[..n], limit, window), reqs[n], limit, window);
    }
  }

  /** Past the deadline of the last admission the key is new again. */
  lemma WaitedOut(k: Key, last: Option<Request>, r: Request, limit: nat, window: nat)
    requires limit > 0 && ExpiresAfter(k, last, window)
    requires last.Some? ==> Second(r) > Second(last.value) + window
    ensures Script(k, r, limit, window).1
  {
    assert Alive(k, r.at) == Absent;
    NewKeyAdmits(k, r, limit, window);
  }

  /**
   Readmission: a request more than `window` whole seconds after the last
   admitted one is admitted, however many denied requests came in between.
   */
  lemma Readmission(reqs: seq<Request>, r: Request, limit: nat, window: nat)
    requires limit > 0
    requires LastAdmitted(reqs, limit, window).Some? ==>
      Second(r) > Second(LastAdmitted(reqs, limit, window).value) + window
    ensures Script(Run(reqs, limit, window), r, limit, window).1
  {
    if window == 0 {
      WindowZeroAdmits(reqs, r, limit);
    } else {
      DenialsKeepDeadline(reqs, limit, window);
      WaitedOut(Run(reqs, limit, window), LastAdmitted(reqs, limit, window), r, limit, window);
    }
  }

  /** With a zero window nothing is ever kept, so nothing is ever denied. */
  lemma {:induction false} WindowZeroAdmits(reqs: seq<Request>, r: Request, limit: nat)
    ensures Run(reqs, limit, 0) == Absent
    ensures Script(Run(reqs, limit, 0), r, limit, 0).1
  {
    if reqs != [] {
      WindowZeroAdmits(reqs[..|reqs| - 1], reqs[|reqs| - 1], limit);
      assert Recorded(Absent, reqs[|reqs| - 1], 0) == map[];
    }
    assert Recorded(Absent, r, 0) == map[];
  }

  // ------------------------------------------------------------------- the script

  /** One key of the Redis server, updated command by command. */
  class RedisKey {
    var key: Key

    constructor ()
      ensures key == Absent
    {
      key := Absent;
    }

    method Touch(now: int)
      modifies this
      ensures key == Alive(old(key), now)
    {
      if key.Present? && key.expireAt.Some? && now > key.expireAt.value {
        key := Absent;
      }
    }

    method ZAdd(score: int, member: Uuid)
      modifies this
      ensures key == Present(Entries(old(key))[member := score], Deadline(old(key)))
    {
      key := Present(Entries(key)[member := score], Deadline(key));
    }

    method ZRemRangeByScore(min: int, max: int)
      modifies this
      ensures var es := Entries(old(key)); var kept := map m | m in es && !(min <= es[m] <= max) :: es[m];
        key == if kept == map[] then Absent else Present(kept, Deadline(old(key)))
    {
      var es := Entries(key);
      var kept := map m | m in es && !(min <= es[m] <= max) :: es[m];
      key := if kept == map[] then Absent else Present(kept, Deadline(key));
    }

    method ZCard() returns (n: nat)
      ensures n == |Entries(key)|
    {
      n := |Entries(key)|;
    }

    method Expire(now: int, seconds: nat)
      modifies this
      ensures key == if old(key).Present? then old(key).(expireAt := Some(now + 1000 * seconds)) else Absent
    {
      if key.Present? {
        key := key.(expireAt := Some(now + 1000 * seconds));
      }
    }

    method RunScript(r: Request, limit: int, window: nat) returns (allowed: bool)
      modifies this
      ensures (key, allowed) == Script(old(key), r, limit, window)
    {
      Touch(r.at);
      ZAdd(Second(r), r.member);
      ZRemRangeByScore(0, Second(r) - window);
      var count := ZCard();
      if count > limit {
        return false;
      }
      Expire(r.at, window);
      return true;
    }
  }
}
