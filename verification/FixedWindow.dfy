/** The per-connection limiter of the WebSocket read pump: a counter that restarts with each window. */
module FixedWindow {

  const LIMIT := 10
  const WINDOW := 1_000_000_000 // one second, in nanoseconds

  datatype Limiter = Limiter(count: int, resetTime: int)

  function New(now: int): Limiter {
    Limiter(0, now + WINDOW)
  }

  /** now.After(resetTime) is strict. */
  function Allow(l: Limiter, now: int): (Limiter, bool) {
    var l1 := if now > l.resetTime then Limiter(0, now + WINDOW) else l;
    if l1.count >= LIMIT then (l1, false) else (l1.(count := l1.count + 1), true)
  }

  function After(l: Limiter, times: seq<int>): Limiter
    decreases |times|
  {
    if times == [] then l else After(Allow(l, times[0]).0, times[1..])
  }

  /** How many of the calls at these times are allowed. */
  function Admitted(l: Limiter, times: seq<int>): nat
    decreases |times|
  {
    if times == [] then 0
    else (if Allow(l, times[0]).1 then 1 else 0) + Admitted(Allow(l, times[0]).0, times[1..])
  }

  ghost predicate NonDecreasing(times: seq<int>) {
    forall i, j :: 0 <= i <= j < |times| ==> times[i] <= times[j]
  }

  /** ceil(d / unit), and 0 for what is not positive. */
  function CeilDiv(d: int, unit: int): nat
    requires unit > 0
  {
    if d <= 0 then 0 else (d + unit - 1) / unit
  }

  /** How many windows can start within d after a window's end: each takes WINDOW + 1, because the comparison is strict. */
  function Windows(d: int): nat {
    CeilDiv(d, WINDOW + 1)
  }

  /** The most calls that any closed interval of this length sees allowed. */
  function Most(length: nat): nat {
    LIMIT * (Windows(length) + 1)
  }

  ghost predicate Valid(l: Limiter) {
    0 <= l.count <= LIMIT
  }

  /** From a given state, what is left of its window plus a full budget per later window. */
  lemma {:induction false} BudgetUntil(l: Limiter, times: seq<int>, last: int)
    requires Valid(l) && NonDecreasing(times) && forall i | 0 <= i < |times| :: times[i] <= last
    ensures Admitted(l, times) <= LIMIT - l.count + LIMIT * Windows(last - l.resetTime)
    decreases |times|
  {
    if times != [] {
      var l' := Allow(l, times[0]).0;
      BudgetUntil(l', times[1..], last);
      if times[0] > l.resetTime {
        WindowsDrop(last - l.resetTime, last - l'.resetTime);
      }
    }
  }

  lemma WindowsDrop(d: int, d': int)
    requires d > 0 && d' <= d - WINDOW - 1
    ensures Windows(d') + 1 <= Windows(d)
  {
  }

  lemma {:induction false} AfterIsValid(l: Limiter, times: seq<int>)
    requires Valid(l)
    ensures Valid(After(l, times))
    decreases |times|
  {
    if times != [] { AfterIsValid(Allow(l, times[0]).0, times[1..]); }
  }

  /** Any closed interval [from, from + length] sees at most that many allowed calls, at any point of any run. */
  lemma ExactBound(start: int, before: seq<int>, times: seq<int>, from: int, length: nat)
    requires NonDecreasing(times)
    requires forall i | 0 <= i < |times| :: from <= times[i] <= from + length
    ensures Admitted(After(New(start), before), times) <= Most(length)
  {
    var l := After(New(start), before);
    AfterIsValid(New(start), before);
    if times != [] {
      if l.resetTime >= from {
        BudgetUntil(l, times, from + length);
      } else {
        var l' := Allow(l, times[0]).0;
        BudgetUntil(l', times[1..], from + length);
      }
    }
  }

  lemma CeilDivShrinks(d: int)
    ensures CeilDiv(d, WINDOW + 1) <= CeilDiv(d, WINDOW)
  {
  }

  /** In particular, at most LIMIT * (ceil(length / WINDOW) + 1). */
  lemma FixedWindowBound(start: int, before: seq<int>, times: seq<int>, from: int, length: nat)
    requires NonDecreasing(times)
    requires forall i | 0 <= i < |times| :: from <= times[i] <= from + length
    ensures Admitted(After(New(start), before), times) <= LIMIT * (CeilDiv(length, WINDOW) + 1)
  {
    ExactBound(start, before, times, from, length);
    CeilDivShrinks(length);
  }

  /** At most twenty calls are allowed within any one second. */
  lemma AtMostTwentyPerSecond(start: int, before: seq<int>, times: seq<int>, from: int)
    requires NonDecreasing(times)
    requires forall i | 0 <= i < |times| :: from <= times[i] <= from + 1_000_000_000
    ensures Admitted(After(New(start), before), times) <= 20
  {
    ExactBound(start, before, times, from, WINDOW);
  }

  lemma {:induction false} BurstAdmitted(l: Limiter, t: int, n: nat)
    requires Valid(l) && t <= l.resetTime && l.count + n <= LIMIT
    ensures Admitted(l, seq(n, _ => t)) == n
    ensures After(l, seq(n, _ => t)) == l.(count := l.count + n)
    decreases n
  {
    if n > 0 {
      assert seq(n, _ => t)[1..] == seq(n - 1, _ => t);
      BurstAdmitted(Allow(l, t).0, t, n - 1);
    }
  }

  lemma {:induction false} AdmittedSplits(l: Limiter, a: seq<int>, b: seq<int>)
    ensures Admitted(l, a + b) == Admitted(l, a) + Admitted(After(l, a), b)
    decreases |a|
  {
    if a == [] {
      assert a + b == b;
    } else {
      assert (a + b)[1..] == a[1..] + b;
      AdmittedSplits(Allow(l, a[0]).0, a[1..], b);
    }
  }

  lemma {:induction false} AfterSplits(l: Limiter, a: seq<int>, b: seq<int>)
    ensures After(l, a + b) == After(After(l, a), b)
    decreases |a|
  {
    if a == [] {
      assert a + b == b;
    } else {
      assert (a + b)[1..] == a[1..] + b;
      AfterSplits(Allow(l, a[0]).0, a[1..], b);
    }
  }

  /** A full burst right after the end of a window. */
  lemma NextWindowAdmits(l: Limiter, t: int)
    requires Valid(l) && t > l.resetTime
    ensures Admitted(l, seq(LIMIT, _ => t)) == LIMIT
    ensures After(l, seq(LIMIT, _ => t)) == Limiter(LIMIT, t + WINDOW)
  {
    var all := seq(LIMIT, _ => t);
    var rest := seq(LIMIT - 1, _ => t);
    assert all[1..] == rest;
    BurstAdmitted(Limiter(1, t + WINDOW), t, LIMIT - 1);
  }

  /** A burst when the first window ends, and one at the start of each of the next n windows. */
  function Bursts(end: int, n: nat): seq<int> {
    if n == 0 then seq(LIMIT, _ => end)
    else Bursts(end, n - 1) + seq(LIMIT, _ => end + 1 + (n - 1) * (WINDOW + 1))
  }

  lemma {:induction false} BurstTimes(end: int, n: nat)
    ensures NonDecreasing(Bursts(end, n)) && |Bursts(end, n)| == LIMIT * (n + 1)
    ensures forall i | 0 <= i < |Bursts(end, n)| ::
      end <= Bursts(end, n)[i] <= if n == 0 then end else end + 1 + (n - 1) * (WINDOW + 1)
  {
    if n > 0 { BurstTimes(end, n - 1); }
  }

  lemma {:induction false} BurstsAdmitted(start: int, n: nat)
    ensures Admitted(New(start), Bursts(start + WINDOW, n)) == LIMIT * (n + 1)
    ensures After(New(start), Bursts(start + WINDOW, n)) == Limiter(LIMIT, start + WINDOW + n * (WINDOW + 1))
  {
    if n == 0 {
      BurstAdmitted(New(start), start + WINDOW, LIMIT);
    } else {
      var t := start + WINDOW + 1 + (n - 1) * (WINDOW + 1);
      BurstsAdmitted(start, n - 1);
      AdmittedSplits(New(start), Bursts(start + WINDOW, n - 1), seq(LIMIT, _ => t));
      AfterSplits(New(start), Bursts(start + WINDOW, n - 1), seq(LIMIT, _ => t));
      NextWindowAdmits(After(New(start), Bursts(start + WINDOW, n - 1)), t);
    }
  }

  lemma LastWindowStartsInTime(length: nat)
    requires Windows(length) > 0
    ensures 1 + (Windows(length) - 1) * (WINDOW + 1) <= length
  {
  }

  /** The bound is attained, for every length: the interval begins when a window ends. */
  lemma BoundAttained(start: int, length: nat) returns (times: seq<int>)
    ensures |times| == Most(length) && NonDecreasing(times)
    ensures forall i | 0 <= i < |times| :: start + WINDOW <= times[i] <= start + WINDOW + length
    ensures Admitted(New(start), times) == Most(length)
  {
    var n := Windows(length);
    times := Bursts(start + WINDOW, n);
    BurstTimes(start + WINDOW, n);
    BurstsAdmitted(start, n);
    if n > 0 { LastWindowStartsInTime(length); }
  }

  /** Twenty is attained: ten calls when a window ends and ten a nanosecond later. */
  lemma TwentyAttained(start: int) returns (times: seq<int>)
    ensures |times| == 20 && NonDecreasing(times)
    ensures forall i | 0 <= i < |times| :: start + 1_000_000_000 <= times[i] <= start + 1_000_000_001
    ensures Admitted(New(start), times) == 20
  {
    times := BoundAttained(start, 1);
  }

  // ------------------------------------------------------------ exactly which calls pass

  /** When the window ends that the last call fell into: only a call after the end of a window starts a new one. */
  function WindowEnd(start: int, times: seq<int>): int {
    if times == [] then start + WINDOW
    else
      var end := WindowEnd(start, times[..|times| - 1]);
      var t := times[|times| - 1];
      if t > end then t + WINDOW else end
  }

  /** How many calls, allowed or not, have fallen into that window. */
  function CallsInWindow(start: int, times: seq<int>): nat {
    if times == [] then 0
    else
      var front := times[..|times| - 1];
      if times[|times| - 1] > WindowEnd(start, front) then 1 else CallsInWindow(start, front) + 1
  }

  lemma {:induction false} AfterAppends(l: Limiter, times: seq<int>, t: int)
    ensures After(l, times + [t]) == Allow(After(l, times), t).0
    decreases |times|
  {
    AfterSplits(l, times, [t]);
    assert [t][1..] == [];
  }

  /** The limiter's two fields, by the times of the calls alone. */
  lemma {:induction false} StateIsHistory(start: int, times: seq<int>)
    ensures var n := CallsInWindow(start, times);
      After(New(start), times) == Limiter(if n < LIMIT then n else LIMIT, WindowEnd(start, times))
  {
    if times != [] {
      var front, t := times[..|times| - 1], times[|times| - 1];
      StateIsHistory(start, front);
      AfterAppends(New(start), front, t);
      assert times == front + [t];
    }
  }

  /**
   The rule: a call is allowed if and only if it comes after the end of the window,
   or fewer than LIMIT calls, refused ones included, came before it in the window.
   */
  lemma AllowedIff(start: int, before: seq<int>, t: int)
    ensures Allow(After(New(start), before), t).1 <==>
      t > WindowEnd(start, before) || CallsInWindow(start, before) < LIMIT
  {
    StateIsHistory(start, before);
  }

  lemma {:induction false} RefusalsKeepWindow(start: int, before: seq<int>, more: seq<int>)
    requires forall i | 0 <= i < |more| :: more[i] <= WindowEnd(start, before)
    ensures WindowEnd(start, before + more) == WindowEnd(start, before)
  {
    if more == [] {
      assert before + more == before;
    } else {
      RefusalsKeepWindow(start, before, more[..|more| - 1]);
      assert (before + more)[..|before + more| - 1] == before + more[..|more| - 1];
    }
  }

  /** Readmission: the first call after the window's end is allowed, however many calls were made before it ended. */
  lemma AllowedAfterWindow(start: int, before: seq<int>, more: seq<int>, t: int)
    requires forall i | 0 <= i < |more| :: more[i] <= WindowEnd(start, before)
    requires t > WindowEnd(start, before)
    ensures Allow(After(New(start), before + more), t).1
  {
    RefusalsKeepWindow(start, before, more);
    AllowedIff(start, before + more, t);
  }

  /** The limiter as the read pump uses it. */
  class RateLimiter {
    var count: int
    var resetTime: int

    function State(): Limiter
      reads this
    {
      Limiter(count, resetTime)
    }

    constructor (now: int)
      ensures State() == New(now)
    {
      count := 0;
      resetTime := now + WINDOW;
    }

    method AllowCall(now: int) returns (allowed: bool)
      modifies this
      ensures (State(), allowed) == Allow(old(State()), now)
    {
      if now > resetTime {
        count := 0;
        resetTime := now + WINDOW;
      }
      if count >= LIMIT {
        return false;
      }
      count := count + 1;
      return true;
    }
  }
}
