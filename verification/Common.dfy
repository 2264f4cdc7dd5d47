/** Small datatypes shared by every component. */
module Common {

  datatype Option<+T> = None | Some(value: T)

  datatype Result<+T, +E> = Ok(value: T) | Err(error: E)

  /** User ids are UUID strings; "system" and "" also occur as ids on the wire. */
  type UserId = string

  /** Row ids handed out by the UUID generator. Only equality is ever used. */
  type Uuid = nat

  /** The service and repository errors that callers can tell apart. */
  datatype Error =
    | SelfAction
    | AlreadyFriends
    | Conflict
    | BlockedRelationship
    | RequestNotFound
    | BlockNotFound
    | NotFound
    | BadRequest
    | Unauthorized
    | Forbidden
    | Internal            // a service wired without its repositories
    | ConstraintViolation // an INSERT refused by a table constraint

  ghost predicate Distinct<T>(s: seq<T>) {
    forall i, j :: 0 <= i < j < |s| ==> s[i] != s[j]
  }

  ghost predicate Increasing(s: seq<nat>) {
    forall i, j :: 0 <= i < j < |s| ==> s[i] < s[j]
  }

  /** A strictly increasing sequence is determined by its elements. */
  lemma {:induction false} IncreasingUnique(s: seq<nat>, t: seq<nat>)
    requires Increasing(s) && Increasing(t)
    requires forall x :: x in s <==> x in t
    ensures s == t
  {
    assert s != [] ==> s[0] in s;
    assert t != [] ==> t[0] in t;
    if s != [] && t != [] {
      forall x | true
        ensures x in s[1..] <==> x in t[1..]
      {
        assert x in s[1..] <==> x in s && x != s[0];
        assert x in t[1..] <==> x in t && x != t[0];
      }
      IncreasingUnique(s[1..], t[1..]);
      assert s == [s[0]] + s[1..] && t == [t[0]] + t[1..];
    }
  }

  /** What holds of a sequence, and of a sequence whenever it holds of a longer one by one, holds of every prefix. */
  lemma {:induction false} PrefixHolds<A>(runs: seq<A> -> bool, acts: seq<A>, k: nat)
    requires runs(acts) && k <= |acts|
    requires forall s {:trigger runs(s[..|s| - 1])} | s != [] && runs(s) :: runs(s[..|s| - 1])
    ensures runs(acts[..k])
  {
    if k == |acts| {
      assert acts[..k] == acts;
    } else {
      assert runs(acts[..|acts| - 1]);
      PrefixHolds(runs, acts[..|acts| - 1], k);
      assert acts[..|acts| - 1][..k] == acts[..k];
    }
  }

  /** Distinct, said by counting. */
  lemma {:induction false} DistinctByCount<T>(s: seq<T>)
    ensures Distinct(s) <==> forall m | m in multiset(s) :: multiset(s)[m] == 1
  {
    if s != [] {
      var front := s[..|s| - 1];
      var last := s[|s| - 1];
      assert s == front + [last];
      DistinctByCount(front);
      if Distinct(front) && last in front {
        var i :| 0 <= i < |front| && front[i] == last;
        assert multiset(front)[last] == 1 && multiset(s)[last] == 2;
        assert s[i] == s[|s| - 1];
      } else if Distinct(front) {
        assert last !in multiset(front);
      } else {
        var m :| m in multiset(front) && multiset(front)[m] != 1;
        assert multiset(s)[m] >= multiset(front)[m] && m in multiset(s);
      }
    }
  }
}
