/**
 Exactly which requests the Redis limiter lets through, said without its script:
 by the times of the requests and by which earlier ones were let through.
 Every request counts against the limit while it is in the window, denied ones
 included; but a key that nobody was admitted on for a whole window starts over.
 */
module AdmissionRule {
  import opened Common
  import opened SlidingWindow

  /** The moment the key expires: a window after the last request that was let through. */
  function ExpiryAt(reqs: seq<Request>, limit: int, window: nat): Option<int> {
    var last := LastAdmitted(reqs, limit, window);
    if last.Some? then Some(last.value.at + 1000 * window) else None
  }

  /** Where the life of the key began in which the last of the requests falls. */
  function LifeStart(reqs: seq<Request>, limit: int, window: nat): (start: nat)
    requires reqs != []
    ensures start < |reqs|
  {
    var n := |reqs| - 1;
    var expiry := ExpiryAt(reqs[..n], limit, window);
    if n == 0 || (expiry.Some? && reqs[n].at > expiry.value) then n
    else LifeStart(reqs[..n], limit, window)
  }

  /** Request i belongs to the current life and is in the window of the last request. */
  ghost predicate InWindow(reqs: seq<Request>, i: nat, limit: int, window: nat) {
    reqs != [] && LifeStart(reqs, limit, window) <= i < |reqs| && Second(reqs[i]) > Second(reqs[|reqs| - 1]) - window
  }

  /** The earlier requests of any kind that count against the last one. */
  ghost function Counted(reqs: seq<Request>, limit: int, window: nat): set<nat>
    requires reqs != []
  {
    set i: nat | i < |reqs| - 1 && InWindow(reqs, i, limit, window)
  }

  // --------------------------------------------------------------------- the deadline

  lemma {:induction false} AdmissionNeedsLimit(reqs: seq<Request>, limit: int, window: nat)
    requires window > 0 && LastAdmitted(reqs, limit, window).Some?
    ensures limit > 0
  {
    var n := |reqs| - 1;
    if Admits(reqs, n, limit, window) {
      var kept := Recorded(Run(reqs[..n], limit, window), reqs[n], window);
      assert reqs[n].member in kept;
    } else {
      AdmissionNeedsLimit(reqs[..n], limit, window);
    }
  }

  lemma ScriptDeadline(k: Key, r: Request, limit: int, window: nat)
    requires window > 0
    ensures var (k', admitted) := Script(k, r, limit, window);
      k'.Present? && k'.expireAt == if admitted then Some(r.at + 1000 * window) else Deadline(Alive(k, r.at))
  {
    assert r.member in Recorded(k, r, window);
  }

  lemma FreshIsAdmitted(k: Key, r: Request, limit: int, window: nat)
    requires limit > 0 && Alive(k, r.at) == Absent
    ensures Script(k, r, limit, window).1
  {
    NewKeyAdmits(k, r, limit, window);
  }

  /** The key's deadline is the one the last admission set. */
  lemma {:induction false} DeadlineIsExpiry(reqs: seq<Request>, limit: int, window: nat)
    requires window > 0
    ensures Deadline(Run(reqs, limit, window)) == ExpiryAt(reqs, limit, window)
    ensures Run(reqs, limit, window) == Absent <==> reqs == []
  {
    if reqs != [] {
      var n := |reqs| - 1;
      var k := Run(reqs[..n], limit, window);
      DeadlineIsExpiry(reqs[..n], limit, window);
      ScriptDeadline(k, reqs[n], limit, window);
      if k.Present? && Alive(k, reqs[n].at) == Absent {
        AdmissionNeedsLimit(reqs[..n], limit, window);
        FreshIsAdmitted(k, reqs[n], limit, window);
      }
    }
  }

  // ---------------------------------------------------------------------- the entries

  /** The key records exactly the requests of the current life that are in the window. */
  ghost predicate Remembers(k: Key, reqs: seq<Request>, limit: int, window: nat) {
    && (forall i: nat | InWindow(reqs, i, limit, window) ::
         reqs[i].member in Entries(k) && Entries(k)[reqs[i].member] == Second(reqs[i]))
    && (forall m | m in Entries(k) :: exists i: nat :: InWindow(reqs, i, limit, window) && reqs[i].member == m)
  }

  /** Unless the key has expired, what is in the window now was in it at the request before, or is the request itself. */
  lemma WindowMoves(reqs: seq<Request>, i: nat, limit: int, window: nat)
    requires WellFormed(reqs) && |reqs| > 1 && window > 0
    requires LifeStart(reqs, limit, window) != |reqs| - 1
    ensures InWindow(reqs, i, limit, window) <==>
      (i == |reqs| - 1 || (InWindow(reqs[..|reqs| - 1], i, limit, window) && Second(reqs[i]) > Second(reqs[|reqs| - 1]) - window))
  {
    ClockMovesOn(reqs);
  }

  lemma RecordedAt(k: Key, r: Request, window: nat, m: Uuid)
    requires Alive(k, r.at) == k && window > 0
    ensures var kept := Recorded(k, r, window);
      if m == r.member then m in kept && kept[m] == Second(r)
      else
        && (m in kept <==> m in Entries(k) && !(0 <= Entries(k)[m] <= Second(r) - window))
        && (m in kept ==> kept[m] == Entries(k)[m])
  {
  }

  lemma StillThere(k: Key, reqs: seq<Request>, i: nat, limit: int, window: nat)
    requires WellFormed(reqs) && |reqs| > 1 && window > 0 && LifeStart(reqs, limit, window) != |reqs| - 1
    requires Remembers(k, reqs[..|reqs| - 1], limit, window) && Alive(k, reqs[|reqs| - 1].at) == k
    requires InWindow(reqs, i, limit, window)
    ensures var kept := Recorded(k, reqs[|reqs| - 1], window);
      reqs[i].member in kept && kept[reqs[i].member] == Second(reqs[i])
  {
    var n := |reqs| - 1;
    WindowMoves(reqs, i, limit, window);
    RecordedAt(k, reqs[n], window, reqs[i].member);
    if i < n {
      assert reqs[..n][i] == reqs[i];
      EarlierAndDistinct(reqs, i, n);
    }
  }

  lemma OnlyThose(k: Key, reqs: seq<Request>, m: Uuid, limit: int, window: nat) returns (i: nat)
    requires WellFormed(reqs) && |reqs| > 1 && window > 0 && LifeStart(reqs, limit, window) != |reqs| - 1
    requires Remembers(k, reqs[..|reqs| - 1], limit, window) && Alive(k, reqs[|reqs| - 1].at) == k
    requires m in Recorded(k, reqs[|reqs| - 1], window)
    ensures InWindow(reqs, i, limit, window) && reqs[i].member == m
  {
    var n := |reqs| - 1;
    RecordedAt(k, reqs[n], window, m);
    if m == reqs[n].member {
      i := n;
    } else {
      i :| InWindow(reqs[..n], i, limit, window) && reqs[..n][i].member == m;
    }
    WindowMoves(reqs, i, limit, window);
  }

  /** One more request on a key that is still alive. */
  lemma StillRemembers(k: Key, reqs: seq<Request>, limit: int, window: nat)
    requires WellFormed(reqs) && |reqs| > 1 && window > 0 && LifeStart(reqs, limit, window) != |reqs| - 1
    requires Remembers(k, reqs[..|reqs| - 1], limit, window) && Alive(k, reqs[|reqs| - 1].at) == k
    ensures Remembers(Present(Recorded(k, reqs[|reqs| - 1], window), None), reqs, limit, window)
  {
    var kept := Recorded(k, reqs[|reqs| - 1], window);
    forall i: nat | InWindow(reqs, i, limit, window)
      ensures reqs[i].member in kept && kept[reqs[i].member] == Second(reqs[i])
    {
      StillThere(k, reqs, i, limit, window);
    }
    forall m | m in kept ensures exists i: nat :: InWindow(reqs, i, limit, window) && reqs[i].member == m {
      var i := OnlyThose(k, reqs, m, limit, window);
    }
  }

  /** The first request on a key that does not exist, or no longer. */
  lemma StartsRemembering(k: Key, reqs: seq<Request>, limit: int, window: nat)
    requires reqs != [] && window > 0 && LifeStart(reqs, limit, window) == |reqs| - 1
    requires Alive(k, reqs[|reqs| - 1].at) == Absent
    ensures Remembers(Present(Recorded(k, reqs[|reqs| - 1], window), None), reqs, limit, window)
  {
    var n := |reqs| - 1;
    assert Recorded(k, reqs[n], window) == map[reqs[n].member := Second(reqs[n])];
    assert InWindow(reqs, n, limit, window);
  }

  lemma ScriptRecords(k: Key, r: Request, limit: int, window: nat)
    requires window > 0
    ensures Entries(Script(k, r, limit, window).0) == Recorded(k, r, window)
    ensures Script(k, r, limit, window).1 <==> |Recorded(k, r, window)| <= limit
  {
    assert r.member in Recorded(k, r, window);
  }

  /** The request starts a life of its key exactly when the key does not exist at that moment. */
  lemma AliveIff(reqs: seq<Request>, limit: int, window: nat)
    requires reqs != [] && window > 0
    ensures var n := |reqs| - 1;
      var k := Run(reqs[..n], limit, window);
      && Alive(k, reqs[n].at) == (if LifeStart(reqs, limit, window) == n then Absent else k)
      && (LifeStart(reqs, limit, window) != n ==> n > 0)
  {
    DeadlineIsExpiry(reqs[..|reqs| - 1], limit, window);
  }

  lemma {:induction false} RunRemembers(reqs: seq<Request>, limit: int, window: nat)
    requires WellFormed(reqs) && reqs != [] && window > 0
    ensures Remembers(Run(reqs, limit, window), reqs, limit, window)
  {
    var n := |reqs| - 1;
    var k := Run(reqs[..n], limit, window);
    AliveIff(reqs, limit, window);
    ScriptRecords(k, reqs[n], limit, window);
    if LifeStart(reqs, limit, window) == n {
      StartsRemembering(k, reqs, limit, window);
    } else {
      RunRemembers(reqs[..n], limit, window);
      StillRemembers(k, reqs, limit, window);
    }
  }

  // ------------------------------------------------------------------------- the rule

  lemma MembersRecorded(k: Key, reqs: seq<Request>, all: set<nat>, limit: int, window: nat)
    requires reqs != [] && Remembers(k, reqs, limit, window)
    requires forall i: nat :: i in all <==> InWindow(reqs, i, limit, window)
    ensures MembersOf(reqs, all) == Entries(k).Keys
  {
    forall m | m in Entries(k) ensures m in MembersOf(reqs, all) {
      var i: nat :| InWindow(reqs, i, limit, window) && reqs[i].member == m;
      assert i in all;
    }
  }

  lemma CountedAndLast(reqs: seq<Request>, i: nat, limit: int, window: nat)
    requires reqs != [] && window > 0
    ensures InWindow(reqs, i, limit, window) <==> i in Counted(reqs, limit, window) || i == |reqs| - 1
  {
  }

  lemma RecordedCount(k: Key, reqs: seq<Request>, limit: int, window: nat)
    requires WellFormed(reqs) && reqs != [] && window > 0 && Remembers(k, reqs, limit, window)
    ensures |Entries(k)| == |Counted(reqs, limit, window)| + 1
  {
    var counted := Counted(reqs, limit, window);
    var all := counted + {|reqs| - 1};
    forall i: nat { CountedAndLast(reqs, i, limit, window); }
    MembersRecorded(k, reqs, all, limit, window);
    MembersCount(reqs, all);
    assert |all| == |counted| + 1;
    assert |Entries(k).Keys| == |Entries(k)|;
  }

  /**
   The rule. A request is let through if and only if fewer than `limit` earlier
   requests of any kind, denied ones included, are in its window and in the
   current life of the key. With a window of zero everything is let through.
   */
  lemma AdmittedIff(reqs: seq<Request>, limit: nat, window: nat)
    requires WellFormed(reqs) && reqs != []
    ensures Admits(reqs, |reqs| - 1, limit, window) <==> window == 0 || |Counted(reqs, limit, window)| < limit
  {
    var n := |reqs| - 1;
    if window == 0 {
      WindowZeroAdmits(reqs[..n], reqs[n], limit);
    } else {
      RunRemembers(reqs, limit, window);
      RecordedCount(Run(reqs, limit, window), reqs, limit, window);
      ScriptRecords(Run(reqs[..n], limit, window), reqs[n], limit, window);
    }
  }
}
