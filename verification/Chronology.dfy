/** The chat page's message list: comparison, sort, and merge of single messages. */
module Chronology {
  import opened Common

  /**
   A message as the page holds it. `id` stands for the id's place in the
   locale's collation order; `createdAt` is what Date.parse makes of the time stamp.
   */
  datatype ChatMessage = ChatMessage(id: nat, createdAt: Option<int>, content: string)

  function Timestamp(m: ChatMessage): int {
    if m.createdAt.Some? then m.createdAt.value else 0
  }

  /** Negative, zero or positive, as the comparator of Array.sort. */
  function Compare(a: ChatMessage, b: ChatMessage): int {
    var byCreatedAt := Timestamp(a) - Timestamp(b);
    if byCreatedAt != 0 then byCreatedAt else if a.id < b.id then -1 else if a.id > b.id then 1 else 0
  }

  ghost predicate Sorted(s: seq<ChatMessage>) {
    forall i, j :: 0 <= i < j < |s| ==> Compare(s[i], s[j]) <= 0
  }

  ghost predicate DistinctIds(s: seq<ChatMessage>) {
    forall i, j :: 0 <= i < j < |s| ==> s[i].id != s[j].id
  }

  /** Sorted and without two messages of the same id. */
  ghost predicate Chronological(s: seq<ChatMessage>) {
    Sorted(s) && DistinctIds(s)
  }

  /** The instant in milliseconds; a time stamp that is missing or cannot be read counts as 0. */
  function Instant(m: ChatMessage): int {
    match m.createdAt
    case Some(ms) => ms
    case None => 0
  }

  /** Oldest first; of the same instant, the smaller id first. */
  ghost predicate OldestFirst(s: seq<ChatMessage>) {
    forall i, j :: 0 <= i < j < |s| ==>
      Instant(s[i]) < Instant(s[j]) || (Instant(s[i]) == Instant(s[j]) && s[i].id < s[j].id)
  }

  /** What sorted by the comparator and free of duplicates comes to. */
  lemma ChronologicalIff(s: seq<ChatMessage>)
    ensures OldestFirst(s) ==> Sorted(s)
    ensures Chronological(s) ==> OldestFirst(s)
  {
  }

  // ------------------------------------------------------------------------ sort

  /** Puts m behind everything that does not compare greater, so equal elements keep their order. */
  function Insert(s: seq<ChatMessage>, m: ChatMessage): (r: seq<ChatMessage>)
    ensures multiset(r) == multiset(s) + multiset{m}
  {
    if s == [] || Compare(s[|s| - 1], m) <= 0 then s + [m]
    else
      assert s == s[..|s| - 1] + [s[|s| - 1]];
      Insert(s[..|s| - 1], m) + [s[|s| - 1]]
  }

  lemma {:induction false} InsertKeepsSorted(s: seq<ChatMessage>, m: ChatMessage)
    requires Sorted(s)
    ensures Sorted(Insert(s, m))
  {
    if s != [] && Compare(s[|s| - 1], m) > 0 {
      var front := s[..|s| - 1];
      var r := Insert(front, m);
      InsertKeepsSorted(front, m);
      forall i | 0 <= i < |r| ensures Compare(r[i], s[|s| - 1]) <= 0 {
        assert r[i] in multiset(r);
        assert r[i] in front || r[i] == m;
      }
    }
  }

  /** A stable sort. */
  function Sort(s: seq<ChatMessage>): (r: seq<ChatMessage>)
    ensures multiset(r) == multiset(s)
  {
    if s == [] then []
    else
      assert s == s[..|s| - 1] + [s[|s| - 1]];
      Insert(Sort(s[..|s| - 1]), s[|s| - 1])
  }

  lemma {:induction false} SortSorts(s: seq<ChatMessage>)
    ensures Sorted(Sort(s))
  {
    if s != [] {
      SortSorts(s[..|s| - 1]);
      InsertKeepsSorted(Sort(s[..|s| - 1]), s[|s| - 1]);
    }
  }

  lemma SameElements(s: seq<ChatMessage>, t: seq<ChatMessage>)
    requires multiset(s) == multiset(t)
    ensures forall m :: m in s <==> m in t
  {
    forall m ensures m in s <==> m in t {
      assert m in s <==> m in multiset(s);
      assert m in t <==> m in multiset(t);
    }
  }

  /** Messages that share an id are the same message. */
  ghost predicate ConsistentIds(ms: seq<ChatMessage>) {
    forall m, n | m in ms && n in ms :: m.id == n.id ==> m == n
  }

  lemma DistinctIdsIff(s: seq<ChatMessage>)
    ensures DistinctIds(s) <==> Distinct(s) && ConsistentIds(s)
  {
    if DistinctIds(s) {
      forall m, n | m in s && n in s && m.id == n.id ensures m == n {
        var i :| 0 <= i < |s| && s[i] == m;
        var j :| 0 <= j < |s| && s[j] == n;
      }
    } else {
      var i, j :| 0 <= i < j < |s| && s[i].id == s[j].id;
      assert s[i] in s && s[j] in s;
    }
  }

  /** Rearranging keeps ids distinct. */
  lemma PermutationKeepsIds(s: seq<ChatMessage>, t: seq<ChatMessage>)
    requires DistinctIds(s) && multiset(s) == multiset(t)
    ensures DistinctIds(t)
  {
    DistinctIdsIff(s);
    DistinctIdsIff(t);
    DistinctByCount(s);
    DistinctByCount(t);
    SameElements(s, t);
  }

  lemma SortKeepsIds(s: seq<ChatMessage>)
    requires DistinctIds(s)
    ensures Chronological(Sort(s))
  {
    SortSorts(s);
    PermutationKeepsIds(s, Sort(s));
  }

  /** A chronological list is determined by its messages. */
  lemma {:induction false} ChronologicalUnique(s: seq<ChatMessage>, t: seq<ChatMessage>)
    requires Chronological(s) && Chronological(t)
    requires forall m :: m in s <==> m in t
    ensures s == t
  {
    assert s != [] ==> s[0] in s;
    assert t != [] ==> t[0] in t;
    if s != [] && t != [] {
      assert s[0] == t[0];
      forall m
        ensures m in s[1..] <==> m in t[1..]
      {
        assert m in s[1..] <==> m in s && m != s[0];
        assert m in t[1..] <==> m in t && m != t[0];
      }
      ChronologicalUnique(s[1..], t[1..]);
      assert s == [s[0]] + s[1..] && t == [t[0]] + t[1..];
    }
  }

  /** Whatever algorithm the engine sorts with, distinct ids leave only one result. */
  lemma AnySortAgrees(s: seq<ChatMessage>, t: seq<ChatMessage>)
    requires DistinctIds(s) && multiset(t) == multiset(s) && Sorted(t)
    ensures t == Sort(s) && OldestFirst(t)
  {
    SortKeepsIds(s);
    PermutationKeepsIds(s, t);
    SameElements(t, Sort(s));
    ChronologicalUnique(t, Sort(s));
    ChronologicalIff(t);
  }

  // ----------------------------------------------------------------------- merge

  predicate HasId(s: seq<ChatMessage>, id: nat) {
    exists i :: 0 <= i < |s| && s[i].id == id
  }

  function Merge(current: seq<ChatMessage>, next: ChatMessage): seq<ChatMessage> {
    if HasId(current, next.id) then current else Sort(current + [next])
  }

  function MergeAll(current: seq<ChatMessage>, ms: seq<ChatMessage>): seq<ChatMessage> {
    if ms == [] then current else Merge(MergeAll(current, ms[..|ms| - 1]), ms[|ms| - 1])
  }

  lemma MergeKeeps(current: seq<ChatMessage>, next: ChatMessage)
    requires Chronological(current)
    ensures Chronological(Merge(current, next))
    ensures forall m :: m in Merge(current, next) <==> m in current || (m == next && !HasId(current, next.id))
  {
    if !HasId(current, next.id) {
      var s := current + [next];
      assert DistinctIds(s);
      SortKeepsIds(s);
      SameElements(Sort(s), s);
    }
  }

  lemma HasIdIff(s: seq<ChatMessage>, id: nat)
    ensures HasId(s, id) <==> exists m :: m in s && m.id == id
  {
    if HasId(s, id) {
      var i :| 0 <= i < |s| && s[i].id == id;
      assert s[i] in s;
    }
  }

  /** Merging one message after the other keeps the list chronological and adds exactly the new ids. */
  lemma {:induction false} MergeAllAdds(current: seq<ChatMessage>, ms: seq<ChatMessage>)
    requires Chronological(current) && ConsistentIds(ms)
    ensures Chronological(MergeAll(current, ms))
    ensures forall m :: m in MergeAll(current, ms) <==> m in current || (m in ms && !HasId(current, m.id))
  {
    if ms != [] {
      var front := ms[..|ms| - 1];
      var last := ms[|ms| - 1];
      var before := MergeAll(current, front);
      assert ms == front + [last];
      MergeAllAdds(current, front);
      MergeKeeps(before, last);
      HasIdIff(before, last.id);
      HasIdIff(current, last.id);
      if HasId(before, last.id) && !HasId(current, last.id) {
        var m :| m in before && m.id == last.id;
        assert m in front && m in ms && last in ms;
      }
    }
  }

  /**
   Confluence: whatever order, and however often, the same messages arrive in,
   the list ends up the same, provided that messages with one id are one message.
   */
  lemma MergeConfluent(current: seq<ChatMessage>, ms: seq<ChatMessage>, ns: seq<ChatMessage>)
    requires Chronological(current) && ConsistentIds(ms)
    requires forall m :: m in ms <==> m in ns
    ensures MergeAll(current, ms) == MergeAll(current, ns)
  {
    MergeAllAdds(current, ms);
    MergeAllAdds(current, ns);
    ChronologicalUnique(MergeAll(current, ms), MergeAll(current, ns));
  }

  function NewOnes(current: seq<ChatMessage>, ms: seq<ChatMessage>): (r: seq<ChatMessage>)
    ensures forall m :: m in r <==> m in ms && !HasId(current, m.id)
    ensures DistinctIds(ms) ==> DistinctIds(r)
  {
    if ms == [] then []
    else
      var m := ms[|ms| - 1];
      var r := NewOnes(current, ms[..|ms| - 1]);
      assert ms == ms[..|ms| - 1] + [m];
      assert forall i | 0 <= i < |r| :: r[i] in ms[..|ms| - 1];
      if HasId(current, m.id) then r else r + [m]
  }

  /** Merging messages with distinct ids one by one is sorting the union once. */
  lemma MergeIsSortOfUnion(current: seq<ChatMessage>, ms: seq<ChatMessage>)
    requires Chronological(current) && DistinctIds(ms)
    ensures MergeAll(current, ms) == Sort(current + NewOnes(current, ms))
  {
    var union := current + NewOnes(current, ms);
    assert ConsistentIds(ms);
    MergeAllAdds(current, ms);
    forall i, j | 0 <= i < j < |union| ensures union[i].id != union[j].id {
      if i < |current| <= j { assert union[j] in NewOnes(current, ms); }
    }
    SortKeepsIds(union);
    SameElements(Sort(union), union);
    ChronologicalUnique(MergeAll(current, ms), Sort(union));
  }

  lemma MergeTwo(current: seq<ChatMessage>, m: ChatMessage, n: ChatMessage)
    ensures MergeAll(current, [m, n]) == Merge(Merge(current, m), n)
  {
    var ms := [m, n];
    assert ms[..|ms| - 1] == [m] && [m][..|[m]| - 1] == [];
    assert MergeAll(current, []) == current;
    assert MergeAll(current, [m]) == Merge(current, m);
  }

  /** When two messages claim one id, the first to arrive wins. */
  lemma FirstWins(current: seq<ChatMessage>, m: ChatMessage, n: ChatMessage)
    requires Chronological(current) && !HasId(current, m.id) && m.id == n.id
    ensures m in MergeAll(current, [m, n]) && (n != m ==> n !in MergeAll(current, [m, n]))
  {
    MergeTwo(current, m, n);
    MergeKeeps(current, m);
    HasIdIff(Merge(current, m), n.id);
    HasIdIff(current, n.id);
    assert m in Merge(current, m);
  }

  /** Two new messages commute if and only if they do not claim one id with different contents. */
  lemma CommuteIff(current: seq<ChatMessage>, m: ChatMessage, n: ChatMessage)
    requires Chronological(current) && !HasId(current, m.id) && !HasId(current, n.id)
    ensures MergeAll(current, [m, n]) == MergeAll(current, [n, m]) <==> (m.id == n.id ==> m == n)
  {
    if m.id == n.id && m != n {
      FirstWins(current, m, n);
      FirstWins(current, n, m);
    } else {
      MergeConfluent(current, [m, n], [n, m]);
    }
  }

  // ------------------------------------------------------------------- the chat page

  /** A history load replaces the list; a received or optimistically sent message is merged in. */
  datatype PageEvent = Load(page: seq<ChatMessage>) | Arrive(m: ChatMessage)

  function Show(events: seq<PageEvent>): seq<ChatMessage> {
    if events == [] then []
    else
      match events[|events| - 1]
      case Load(page) => Sort(page)
      case Arrive(m) => Merge(Show(events[..|events| - 1]), m)
  }

  /** The list stays oldest first and free of duplicates through every interleaving. */
  lemma PageStaysChronological(events: seq<PageEvent>)
    requires forall e | e in events :: e.Load? ==> DistinctIds(e.page)
    ensures OldestFirst(Show(events)) && DistinctIds(Show(events))
  {
    ShowIsChronological(events);
    ChronologicalIff(Show(events));
  }

  lemma {:induction false} ShowIsChronological(events: seq<PageEvent>)
    requires forall e | e in events :: e.Load? ==> DistinctIds(e.page)
    ensures Chronological(Show(events))
  {
    if events != [] {
      var front := events[..|events| - 1];
      assert events[|events| - 1] in events;
      match events[|events| - 1]
      case Load(page) => SortKeepsIds(page);
      case Arrive(m) =>
        ShowIsChronological(front);
        MergeKeeps(Show(front), m);
    }
  }

  function Arrivals(ms: seq<ChatMessage>): (r: seq<PageEvent>)
    ensures |r| == |ms| && forall i | 0 <= i < |ms| :: r[i] == Arrive(ms[i])
  {
    seq(|ms|, i requires 0 <= i < |ms| => Arrive(ms[i]))
  }

  /** A history load forgets what was shown before; what arrives after it is merged into the page. */
  lemma {:induction false} ShowAfterLoad(events: seq<PageEvent>, page: seq<ChatMessage>, later: seq<ChatMessage>)
    ensures Show(events + [Load(page)] + Arrivals(later)) == MergeAll(Sort(page), later)
  {
    var all := events + [Load(page)] + Arrivals(later);
    if later == [] {
      assert all[..|all| - 1] == events;
    } else {
      var front := later[..|later| - 1];
      ShowAfterLoad(events, page, front);
      assert all[..|all| - 1] == events + [Load(page)] + Arrivals(front);
      assert all[|all| - 1] == Arrive(later[|later| - 1]);
    }
  }

  /**
   Whatever was shown before, after a history load a message is shown if and only
   if its id is on the loaded page or the message arrives afterwards.
   */
  lemma SurvivesLoadIff(events: seq<PageEvent>, page: seq<ChatMessage>, later: seq<ChatMessage>, m: ChatMessage)
    requires DistinctIds(page) && ConsistentIds(page + later + [m])
    ensures m in Show(events + [Load(page)] + Arrivals(later)) <==> HasId(page, m.id) || m in later
  {
    assert forall x | x in page || x in later || x == m :: x in page + later + [m];
    ShowAfterLoad(events, page, later);
    SortKeepsIds(page);
    SameElements(page, Sort(page));
    MergeAllAdds(Sort(page), later);
    HasIdIff(page, m.id);
    HasIdIff(Sort(page), m.id);
  }
}
