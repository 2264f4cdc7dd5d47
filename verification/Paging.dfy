/** Conversation history: newest-first pages by LIMIT and OFFSET, and reading them all while the table grows. */
module Paging {
  import opened Common
  import opened Store
  import C = Chronology

  // ------------------------------------------------------------------- the query

  /** The WHERE clause: a direct exchange between the two, in either direction. */
  predicate Matches(m: Message, a: UserId, b: UserId) {
    (m.sender == a && m.receiver == b) || (m.sender == b && m.receiver == a)
  }

  function Matching(rows: seq<Message>, a: UserId, b: UserId): (r: seq<Message>)
    ensures forall m :: m in r <==> m in rows && Matches(m, a, b)
  {
    if rows == [] then []
    else
      var m := rows[|rows| - 1];
      var r := Matching(rows[..|rows| - 1], a, b);
      assert rows == rows[..|rows| - 1] + [m];
      if Matches(m, a, b) then r + [m] else r
  }

  /** ORDER BY created_at DESC: rows of the same instant come in an order the query leaves open. */
  ghost predicate NewestFirst(s: seq<Message>) {
    forall i, j :: 0 <= i < j < |s| ==> s[i].createdAt >= s[j].createdAt
  }

  ghost predicate IsListing(rows: seq<Message>, a: UserId, b: UserId, listing: seq<Message>) {
    multiset(listing) == multiset(Matching(rows, a, b)) && NewestFirst(listing)
  }

  /** LIMIT and OFFSET. */
  function Page(listing: seq<Message>, limit: nat, offset: nat): seq<Message> {
    var from := if offset < |listing| then offset else |listing|;
    var to := if from + limit < |listing| then from + limit else |listing|;
    listing[from..to]
  }

  const DEFAULT_LIMIT := 50

  /** The loop over the rows of one result. */
  method GetMessagesBetweenUsers(listing: seq<Message>, limit: nat, offset: nat) returns (messages: seq<Message>)
    ensures messages == Page(listing, limit, offset)
  {
    messages := [];
    var i := offset;
    while i < |listing| && i < offset + limit
      invariant offset <= i
      invariant offset < |listing| ==> i <= |listing|
      invariant i <= offset + limit
      invariant messages == if offset < |listing| then listing[offset..i] else []
    {
      messages := messages + [listing[i]];
      i := i + 1;
    }
  }

  /**
   What a caller gets for any limit and offset, even negative ones: consecutive
   rows of the listing, never more than the limit in force, newest first again;
   and fewer than that only when no older row is left.
   */
  method GetConversation(listing: seq<Message>, limit: int, offset: int) returns (messages: seq<Message>)
    ensures |messages| <= if limit > 0 then limit else 50
    ensures forall i | 0 <= i < |messages| && offset >= 0 ::
      offset + i < |listing| && messages[i] == listing[offset + i]
    ensures offset < 0 ==> messages <= listing
    ensures (if limit > 0 then |messages| < limit else |messages| < 50) ==>
      |listing| <= (if offset > 0 then offset else 0) + |messages|
    ensures NewestFirst(listing) ==> NewestFirst(messages)
  {
    var l, o := limit, offset;
    if l <= 0 {
      l := DEFAULT_LIMIT;
    }
    if o < 0 {
      o := 0;
    }
    messages := GetMessagesBetweenUsers(listing, l, o);
  }

  /** Both participants are shown the same conversation. */
  lemma {:induction false} SameForBoth(rows: seq<Message>, a: UserId, b: UserId)
    ensures Matching(rows, a, b) == Matching(rows, b, a)
    ensures forall listing :: IsListing(rows, a, b, listing) <==> IsListing(rows, b, a, listing)
  {
    if rows != [] { SameForBoth(rows[..|rows| - 1], a, b); }
  }

  // ------------------------------------------------------------- where a row stands

  ghost predicate DistinctTimes(s: seq<Message>) {
    forall i, j :: 0 <= i < j < |s| ==> s[i].createdAt != s[j].createdAt
  }

  /** No other row of the listing has this row's instant. */
  ghost predicate Untied(listing: seq<Message>, m: Message) {
    forall n | n in listing :: n.createdAt == m.createdAt ==> n == m
  }

  /** The first place of the row in the listing. */
  function Position(listing: seq<Message>, m: Message): (p: nat)
    requires m in listing
    ensures p < |listing| && listing[p] == m && m !in listing[..p]
  {
    if listing[0] == m then 0
    else
      assert m in listing[1..];
      var p := 1 + Position(listing[1..], m);
      assert listing[..p] == [listing[0]] + listing[1..][..p - 1];
      p
  }

  lemma AheadIsNewer(listing: seq<Message>, m: Message, x: Message)
    requires NewestFirst(listing) && m in listing && Untied(listing, m) && x in listing[..Position(listing, m)]
    ensures x.createdAt > m.createdAt
  {
    var i :| 0 <= i < Position(listing, m) && listing[i] == x;
    assert listing[i].createdAt >= listing[Position(listing, m)].createdAt;
  }

  lemma BehindIsNotNewer(listing: seq<Message>, m: Message, x: Message)
    requires NewestFirst(listing) && m in listing && x in listing[Position(listing, m)..]
    ensures x.createdAt <= m.createdAt
  {
    var p := Position(listing, m);
    var i :| 0 <= i < |listing| - p && listing[p..][i] == x;
    assert listing[p].createdAt >= listing[p + i].createdAt;
  }

  lemma CountParts(s: seq<Message>, p: nat, x: Message)
    requires p <= |s|
    ensures multiset(s)[x] == multiset(s[..p])[x] + multiset(s[p..])[x]
  {
    assert s == s[..p] + s[p..];
  }

  /** Ahead of an untied row stand exactly the newer ones. */
  lemma AheadAreNewer(listing: seq<Message>, m: Message, x: Message)
    requires NewestFirst(listing) && m in listing && Untied(listing, m)
    ensures multiset(listing[..Position(listing, m)])[x] ==
      if x.createdAt > m.createdAt then multiset(listing)[x] else 0
  {
    var p := Position(listing, m);
    CountParts(listing, p, x);
    if x in listing[p..] { BehindIsNotNewer(listing, m, x); }
    if x in listing[..p] { AheadIsNewer(listing, m, x); }
  }

  lemma BagSize(s: seq<Message>, t: seq<Message>)
    requires multiset(s) <= multiset(t)
    ensures |s| <= |t|
  {
    assert multiset(t) == multiset(s) + (multiset(t) - multiset(s));
    assert |multiset(t)| == |multiset(s)| + |multiset(t) - multiset(s)|;
  }

  /** When rows are added, an untied row never moves up, wherever the new rows come to stand. */
  lemma NeverMovesUp(earlier: seq<Message>, later: seq<Message>, m: Message)
    requires NewestFirst(earlier) && NewestFirst(later) && multiset(earlier) <= multiset(later)
    requires m in earlier && Untied(later, m)
    ensures m in later && Position(earlier, m) <= Position(later, m)
  {
    forall n | n in earlier ensures n in later { assert n in multiset(earlier) && n in multiset(later); }
    var ahead, aheadLater := earlier[..Position(earlier, m)], later[..Position(later, m)];
    forall x ensures multiset(ahead)[x] <= multiset(aheadLater)[x] {
      AheadAreNewer(earlier, m, x);
      AheadAreNewer(later, m, x);
    }
    BagSize(ahead, aheadLater);
  }

  lemma {:induction false} MatchingAppends(rows: seq<Message>, more: seq<Message>, a: UserId, b: UserId)
    ensures Matching(rows + more, a, b) == Matching(rows, a, b) + Matching(more, a, b)
  {
    if more == [] {
      assert rows + more == rows;
    } else {
      assert (rows + more)[..|rows + more| - 1] == rows + more[..|more| - 1];
      MatchingAppends(rows, more[..|more| - 1], a, b);
    }
  }

  // ------------------------------------------------------------------- reading it all

  /** listings[k] is what page k is cut from; the row is in each and never moves up; the reader stops at a short page. */
  ghost predicate Reading(listings: seq<seq<Message>>, limit: nat, m: Message) {
    && listings != [] && limit > 0
    && (forall k | 0 <= k < |listings| :: m in listings[k])
    && (forall k, l | 0 <= k <= l < |listings| :: Position(listings[k], m) <= Position(listings[l], m))
    && |PageOf(listings, limit, |listings| - 1)| < limit
  }

  /** Each request adds one limit to the offset of the one before. */
  function Offset(limit: nat, k: nat): nat {
    if k == 0 then 0 else Offset(limit, k - 1) + limit
  }

  lemma {:induction false} OffsetIsProduct(limit: nat, k: nat)
    ensures Offset(limit, k) == k * limit
  {
    if k > 0 { OffsetIsProduct(limit, k - 1); }
  }

  function PageOf(listings: seq<seq<Message>>, limit: nat, k: nat): seq<Message>
    requires k < |listings|
  {
    Page(listings[k], limit, Offset(limit, k))
  }

  lemma {:induction false} FirstPageReaching(listings: seq<seq<Message>>, limit: nat, m: Message, last: nat) returns (k: nat)
    requires Reading(listings, limit, m) && last < |listings|
    requires Position(listings[last], m) < Offset(limit, last + 1)
    ensures k <= last && Offset(limit, k) <= Position(listings[k], m) < Offset(limit, k + 1)
  {
    if last == 0 || Offset(limit, last) <= Position(listings[last], m) {
      k := last;
    } else {
      assert Position(listings[last - 1], m) <= Position(listings[last], m);
      k := FirstPageReaching(listings, limit, m, last - 1);
    }
  }

  lemma OnPage(listing: seq<Message>, limit: nat, offset: nat, at: nat)
    requires offset <= at < offset + limit && at < |listing|
    ensures listing[at] in Page(listing, limit, offset)
  {
    assert Page(listing, limit, offset)[at - offset] == listing[at];
  }

  lemma ShortPageEnds(listing: seq<Message>, limit: nat, offset: nat)
    requires |Page(listing, limit, offset)| < limit
    ensures |listing| < offset + limit
  {
  }

  /** A row that is there from the first load on and never moves up is on some page. */
  lemma NothingSkipped(listings: seq<seq<Message>>, limit: nat, m: Message) returns (k: nat)
    requires Reading(listings, limit, m)
    ensures k < |listings| && m in PageOf(listings, limit, k)
  {
    var last := |listings| - 1;
    ShortPageEnds(listings[last], limit, Offset(limit, last));
    k := FirstPageReaching(listings, limit, m, last);
    OnPage(listings[k], limit, Offset(limit, k), Position(listings[k], m));
  }

  function AllPages(listings: seq<seq<Message>>, limit: nat, n: nat): (r: seq<Message>)
    requires n <= |listings|
    ensures forall k | 0 <= k < n :: forall m | m in PageOf(listings, limit, k) :: m in r
    ensures forall m | m in r :: exists k :: 0 <= k < n && m in PageOf(listings, limit, k)
  {
    if n == 0 then [] else AllPages(listings, limit, n - 1) + PageOf(listings, limit, n - 1)
  }

  /** While nothing changes, the pages tile the listing: each row exactly once, in order. */
  lemma {:induction false} PagesTile(listings: seq<seq<Message>>, limit: nat, n: nat)
    requires 0 < n <= |listings| && forall k | 0 < k < |listings| :: listings[k] == listings[0]
    ensures AllPages(listings, limit, n) ==
      if Offset(limit, n) < |listings[0]| then listings[0][..Offset(limit, n)] else listings[0]
  {
    assert AllPages(listings, limit, 0) == [];
    if n > 1 {
      PagesTile(listings, limit, n - 1);
      assert listings[n - 1] == listings[0];
    }
  }

  // --------------------------------------------------------------- what the client shows

  /** Date.parse keeps milliseconds. */
  function Shown(m: Message): C.ChatMessage {
    C.ChatMessage(m.id, Some(m.createdAt / 1_000_000), m.body)
  }

  function ShownAll(ms: seq<Message>): (r: seq<C.ChatMessage>)
    ensures |r| == |ms| && forall i | 0 <= i < |ms| :: r[i] == Shown(ms[i])
  {
    seq(|ms|, i requires 0 <= i < |ms| => Shown(ms[i]))
  }

  /** Rows of one table: the primary key tells them apart. */
  ghost predicate KeyedRows(ms: seq<Message>) {
    forall m, n | m in ms && n in ms :: m.id == n.id ==> m == n
  }

  lemma ShownConsistent(pages: seq<Message>)
    requires KeyedRows(pages)
    ensures C.ConsistentIds(ShownAll(pages))
  {
    var shown := ShownAll(pages);
    forall x, y | x in shown && y in shown && x.id == y.id ensures x == y {
      var i :| 0 <= i < |shown| && shown[i] == x;
      var j :| 0 <= j < |shown| && shown[j] == y;
      assert pages[i] in pages && pages[j] in pages;
    }
  }

  /** Merging rows one by one gives a chronological list of all of them. */
  lemma MergedPages(pages: seq<Message>)
    requires KeyedRows(pages)
    ensures var list := C.MergeAll([], ShownAll(pages));
      C.Chronological(list) && forall m | m in pages :: Shown(m) in list
  {
    var shown := ShownAll(pages);
    ShownConsistent(pages);
    C.MergeAllAdds([], shown);
    forall m | m in pages ensures Shown(m) in C.MergeAll([], shown) {
      var i :| 0 <= i < |pages| && pages[i] == m;
      assert shown[i] == Shown(m);
    }
  }

  /** A row is shown if and only if it is on a page. */
  lemma ShownIffOnPage(pages: seq<Message>, m: Message)
    requires KeyedRows(pages + [m])
    ensures Shown(m) in C.MergeAll([], ShownAll(pages)) <==> m in pages
  {
    var shown := ShownAll(pages);
    assert forall x | x in pages :: x in pages + [m];
    ShownConsistent(pages);
    C.MergeAllAdds([], shown);
    if Shown(m) in shown {
      var i :| 0 <= i < |shown| && shown[i] == Shown(m);
      assert pages[i] in pages && m in pages + [m];
    }
  }

  /**
   The messages table at each page load: rows are only added, at any instant that
   no row which the conversation had at the first load has.
   */
  ghost predicate Grows(tables: seq<seq<Message>>, a: UserId, b: UserId) {
    && tables != []
    && (forall k, l :: 0 <= k <= l < |tables| ==> tables[k] <= tables[l])
    && (forall k, m, n | 0 <= k < |tables| && m in tables[k][|tables[0]|..] && n in tables[0]
         && Matches(m, a, b) && Matches(n, a, b) ::
         m.createdAt != n.createdAt)
  }

  /**
   One complete reading of a conversation: page k is cut from some listing of the
   table as it is at that load; between loads rows come in; the first listing is
   `first`, and the last page is a short one.
   */
  ghost predicate ReadsThrough(
    tables: seq<seq<Message>>, listings: seq<seq<Message>>, a: UserId, b: UserId, limit: nat, first: seq<Message>)
  {
    && Grows(tables, a, b) && |listings| == |tables| && limit > 0
    && (forall k | 0 <= k < |tables| :: IsListing(tables[k], a, b, listings[k]))
    && listings[0] == first
    && |PageOf(listings, limit, |listings| - 1)| < limit
  }

  lemma ListingGrows(earlierRows: seq<Message>, laterRows: seq<Message>, a: UserId, b: UserId,
                     earlier: seq<Message>, later: seq<Message>)
    requires earlierRows <= laterRows
    requires IsListing(earlierRows, a, b, earlier) && IsListing(laterRows, a, b, later)
    ensures multiset(earlier) <= multiset(later)
  {
    var more := laterRows[|earlierRows|..];
    assert laterRows == earlierRows + more;
    MatchingAppends(earlierRows, more, a, b);
  }

  lemma ListedIff(rows: seq<Message>, a: UserId, b: UserId, listing: seq<Message>, m: Message)
    requires IsListing(rows, a, b, listing)
    ensures m in listing <==> m in rows && Matches(m, a, b)
  {
    assert m in listing <==> m in multiset(listing);
    assert m in Matching(rows, a, b) <==> m in multiset(Matching(rows, a, b));
  }

  /** An old row is tied in no listing of the reading. */
  lemma StaysUntied(tables: seq<seq<Message>>, listings: seq<seq<Message>>, a: UserId, b: UserId, limit: nat,
                    first: seq<Message>, m: Message, k: nat)
    requires ReadsThrough(tables, listings, a, b, limit, first) && DistinctTimes(first) && m in first && k < |tables|
    ensures Untied(listings[k], m)
  {
    ListedIff(tables[0], a, b, first, m);
    var added := tables[k][|tables[0]|..];
    assert tables[0] <= tables[k] && tables[k] == tables[0] + added;
    forall n | n in listings[k] && n.createdAt == m.createdAt ensures n == m {
      ListedIff(tables[k], a, b, listings[k], n);
      ListedIff(tables[0], a, b, first, n);
      assert n in tables[0] + added;
    }
  }

  /** A listing has exactly the rows between the two users, in either direction, and none of a third one. */
  lemma ListedBetween(rows: seq<Message>, a: UserId, b: UserId, listing: seq<Message>, m: Message)
    requires IsListing(rows, a, b, listing)
    ensures m in listing <==> m in rows && {m.sender, m.receiver} == {a, b}
  {
    ListedIff(rows, a, b, listing, m);
    if {m.sender, m.receiver} == {a, b} {
      assert m.sender in {a, b} && m.receiver in {a, b} && a in {m.sender, m.receiver} && b in {m.sender, m.receiver};
    }
  }

  lemma GrowthIsReading(tables: seq<seq<Message>>, listings: seq<seq<Message>>, a: UserId, b: UserId, limit: nat,
                        first: seq<Message>, m: Message)
    requires ReadsThrough(tables, listings, a, b, limit, first) && DistinctTimes(first) && m in first
    ensures Reading(listings, limit, m)
  {
    forall k | 0 <= k < |listings| ensures m in listings[k] {
      ListedIff(tables[0], a, b, first, m);
      ListedIff(tables[k], a, b, listings[k], m);
      assert tables[0] <= tables[k];
    }
    forall k, l | 0 <= k <= l < |listings| ensures Position(listings[k], m) <= Position(listings[l], m) {
      ListingGrows(tables[k], tables[l], a, b, listings[k], listings[l]);
      StaysUntied(tables, listings, a, b, limit, first, m, l);
      NeverMovesUp(listings[k], listings[l], m);
    }
  }

  lemma PagesAreRows(tables: seq<seq<Message>>, listings: seq<seq<Message>>, a: UserId, b: UserId,
                     limit: nat, first: seq<Message>, m: Message)
    requires ReadsThrough(tables, listings, a, b, limit, first)
    requires m in AllPages(listings, limit, |listings|)
    ensures m in tables[|tables| - 1]
  {
    var k :| 0 <= k < |listings| && m in PageOf(listings, limit, k);
    ListedIff(tables[k], a, b, listings[k], m);
    assert tables[k] <= tables[|tables| - 1];
  }

  /** What the client shows after merging every page of the reading. */
  function ShownList(listings: seq<seq<Message>>, limit: nat): seq<C.ChatMessage> {
    C.MergeAll([], ShownAll(AllPages(listings, limit, |listings|)))
  }

  /**
   Every row of the conversation that existed at the first load, for either
   participant, ends up in the merged list, which is sorted and without
   duplicates, provided that no other row of the conversation, old or inserted
   since, has the instant of an old one. It does not matter where rows come in.
   */
  lemma HistoryIsCovered(
    tables: seq<seq<Message>>, listings: seq<seq<Message>>, a: UserId, b: UserId, limit: nat, first: seq<Message>)
    requires ReadsThrough(tables, listings, a, b, limit, first)
    requires DistinctTimes(first) && KeyedRows(tables[|tables| - 1])
    ensures C.Chronological(ShownList(listings, limit))
    ensures forall m | m in tables[0] && Matches(m, a, b) :: Shown(m) in ShownList(listings, limit)
  {
    var pages := AllPages(listings, limit, |listings|);
    forall m | m in pages ensures m in tables[|tables| - 1] {
      PagesAreRows(tables, listings, a, b, limit, first, m);
    }
    MergedPages(pages);
    forall m | m in tables[0] && Matches(m, a, b) ensures m in pages {
      ListedIff(tables[0], a, b, first, m);
      GrowthIsReading(tables, listings, a, b, limit, first, m);
      var k := NothingSkipped(listings, limit, m);
    }
  }

  /** On the page the rows of the conversation stand by their milliseconds, oldest first. */
  lemma ShownInOrder(
    tables: seq<seq<Message>>, listings: seq<seq<Message>>, a: UserId, b: UserId, limit: nat, first: seq<Message>,
    m: Message, n: Message) returns (i: nat, j: nat)
    requires ReadsThrough(tables, listings, a, b, limit, first)
    requires DistinctTimes(first) && KeyedRows(tables[|tables| - 1])
    requires m in tables[0] && n in tables[0] && Matches(m, a, b) && Matches(n, a, b)
    ensures var list := ShownList(listings, limit);
      && i < |list| && j < |list|
      && list[i].id == m.id && list[i].content == m.body && list[i].createdAt == Some(m.createdAt / 1_000_000)
      && list[j].id == n.id && list[j].content == n.body && list[j].createdAt == Some(n.createdAt / 1_000_000)
      && (m.createdAt / 1_000_000 < n.createdAt / 1_000_000 ==> i < j)
  {
    HistoryIsCovered(tables, listings, a, b, limit, first);
    i, j := OlderStandsBefore(ShownList(listings, limit), Shown(m), Shown(n));
  }

  lemma OlderStandsBefore(list: seq<C.ChatMessage>, x: C.ChatMessage, y: C.ChatMessage) returns (i: nat, j: nat)
    requires C.Chronological(list) && x in list && y in list
    ensures i < |list| && j < |list| && list[i] == x && list[j] == y
    ensures C.Instant(x) < C.Instant(y) ==> i < j
  {
    C.ChronologicalIff(list);
    i :| i < |list| && list[i] == x;
    j :| j < |list| && list[j] == y;
  }

  // ------------------------------------------------------------- when rows are tied

  /** Rows p and p + 1 trade places. */
  function Swapped(s: seq<Message>, p: nat): (r: seq<Message>)
    requires p + 1 < |s|
    ensures |r| == |s| && r[p] == s[p + 1] && r[p + 1] == s[p]
    ensures forall i | 0 <= i < |s| && i != p && i != p + 1 :: r[i] == s[i]
  {
    s[p := s[p + 1]][p + 1 := s[p]]
  }

  lemma SwappedIsListing(rows: seq<Message>, a: UserId, b: UserId, s: seq<Message>, p: nat)
    requires IsListing(rows, a, b, s) && p + 1 < |s| && s[p].createdAt == s[p + 1].createdAt
    ensures IsListing(rows, a, b, Swapped(s, p))
  {
    assert s == s[..p] + [s[p], s[p + 1]] + s[p + 2..];
    assert Swapped(s, p) == s[..p] + [s[p + 1], s[p]] + s[p + 2..];
  }

  /** A newest-first listing with a tie has two adjacent rows that are tied. */
  lemma {:induction false} AdjacentTie(s: seq<Message>) returns (p: nat)
    requires NewestFirst(s) && !DistinctTimes(s)
    ensures p + 1 < |s| && s[p].createdAt == s[p + 1].createdAt
  {
    var i, j :| 0 <= i < j < |s| && s[i].createdAt == s[j].createdAt;
    p := i;
  }

  /** Row p + 1 of the first listing is on no page cut from the swapped one behind row p. */
  lemma SwappedSkips(s: seq<Message>, p: nat, limit: nat, offset: nat)
    requires Distinct(s) && p + 1 < |s| && p < offset
    ensures s[p + 1] !in Page(Swapped(s, p), limit, offset)
  {
  }

  /**
   Page 0 cut from one listing of unchanged rows, every later page from another
   one that swaps a tied pair across the page boundary.
   */
  function TiedReading(s: seq<Message>, p: nat): (listings: seq<seq<Message>>)
    requires p + 1 < |s|
    ensures |listings| == |s| + 1 && listings[0] == s
    ensures forall k | 1 <= k < |listings| :: listings[k] == Swapped(s, p)
  {
    seq(|s| + 1, k => if k == 0 then s else Swapped(s, p))
  }

  lemma {:induction false} TiedRowSkipped(s: seq<Message>, p: nat, n: nat)
    requires Distinct(s) && p + 1 < |s| && n <= |s| + 1
    ensures s[p + 1] !in AllPages(TiedReading(s, p), p + 1, n)
  {
    if n > 0 {
      TiedRowSkipped(s, p, n - 1);
      TiedPageSkips(s, p, n - 1);
    }
  }

  lemma TiedPageSkips(s: seq<Message>, p: nat, k: nat)
    requires Distinct(s) && p + 1 < |s| && k <= |s|
    ensures s[p + 1] !in PageOf(TiedReading(s, p), p + 1, k)
  {
    if k > 0 { SwappedSkips(s, p, p + 1, Offset(p + 1, k)); }
  }

  /** A table that does not change, seen n times. */
  function Unchanged(rows: seq<Message>, n: nat): (tables: seq<seq<Message>>)
    ensures |tables| == n && forall k | 0 <= k < n :: tables[k] == rows
  {
    seq(n, _ => rows)
  }

  /** No reading that starts from this table and listing skips a row of the listing. */
  ghost predicate NeverSkips(rows: seq<Message>, a: UserId, b: UserId, first: seq<Message>) {
    forall tables, listings, limit, m
      | ReadsThrough(tables, listings, a, b, limit, first) && tables[0] == rows && m in first ::
      m in AllPages(listings, limit, |listings|)
  }

  lemma {:induction false} OffsetGrows(limit: nat, k: nat)
    requires limit > 0
    ensures k <= Offset(limit, k)
  {
    if k > 0 { OffsetGrows(limit, k - 1); }
  }

  lemma TiedIsReading(rows: seq<Message>, a: UserId, b: UserId, s: seq<Message>, p: nat)
    requires IsListing(rows, a, b, s) && p + 1 < |s| && s[p].createdAt == s[p + 1].createdAt
    ensures ReadsThrough(Unchanged(rows, |s| + 1), TiedReading(s, p), a, b, p + 1, s)
  {
    SwappedIsListing(rows, a, b, s, p);
    OffsetGrows(p + 1, |s|);
  }

  lemma DistinctTimesNeverSkips(rows: seq<Message>, a: UserId, b: UserId, first: seq<Message>)
    requires DistinctTimes(first)
    ensures NeverSkips(rows, a, b, first)
  {
    forall tables, listings, limit, m
      | ReadsThrough(tables, listings, a, b, limit, first) && tables[0] == rows && m in first
      ensures m in AllPages(listings, limit, |listings|)
    {
      GrowthIsReading(tables, listings, a, b, limit, first, m);
      var k := NothingSkipped(listings, limit, m);
    }
  }

  lemma TiesSkip(rows: seq<Message>, a: UserId, b: UserId, first: seq<Message>)
    requires IsListing(rows, a, b, first) && Distinct(first) && !DistinctTimes(first)
    ensures !NeverSkips(rows, a, b, first)
  {
    var p := AdjacentTie(first);
    var tables, listings, m := Unchanged(rows, |first| + 1), TiedReading(first, p), first[p + 1];
    TiedIsReading(rows, a, b, first, p);
    TiedRowSkipped(first, p, |listings|);
    assert tables[0] == rows && m in first && m !in AllPages(listings, p + 1, |listings|);
  }

  /**
   Offset paging under growth covers the history if and only if the rows that
   existed at the first load have distinct instants. With a tie, some page size
   and some order of the tied rows skips one of them, even while nothing is added.
   */
  lemma NeverSkipsIff(rows: seq<Message>, a: UserId, b: UserId, first: seq<Message>)
    requires IsListing(rows, a, b, first) && Distinct(first)
    ensures NeverSkips(rows, a, b, first) <==> DistinctTimes(first)
  {
    if DistinctTimes(first) { DistinctTimesNeverSkips(rows, a, b, first); } else { TiesSkip(rows, a, b, first); }
  }

  /** Every reading that starts from this table and listing shows every row of the listing once its pages are merged. */
  ghost predicate AlwaysShown(rows: seq<Message>, a: UserId, b: UserId, first: seq<Message>) {
    forall tables, listings, limit, m
      | ReadsThrough(tables, listings, a, b, limit, first) && tables[0] == rows && m in first
        && KeyedRows(tables[|tables| - 1]) ::
      Shown(m) in ShownList(listings, limit)
  }

  lemma DistinctTimesAlwaysShown(rows: seq<Message>, a: UserId, b: UserId, first: seq<Message>)
    requires DistinctTimes(first)
    ensures AlwaysShown(rows, a, b, first)
  {
    forall tables, listings, limit, m
      | ReadsThrough(tables, listings, a, b, limit, first) && tables[0] == rows && m in first
        && KeyedRows(tables[|tables| - 1])
      ensures Shown(m) in ShownList(listings, limit)
    {
      HistoryIsCovered(tables, listings, a, b, limit, first);
      ListedIff(rows, a, b, first, m);
    }
  }

  lemma TiesHide(rows: seq<Message>, a: UserId, b: UserId, first: seq<Message>)
    requires IsListing(rows, a, b, first) && Distinct(first) && KeyedRows(rows) && !DistinctTimes(first)
    ensures !AlwaysShown(rows, a, b, first)
  {
    var p := AdjacentTie(first);
    var tables, listings, m := Unchanged(rows, |first| + 1), TiedReading(first, p), first[p + 1];
    var pages := AllPages(listings, p + 1, |listings|);
    TiedIsReading(rows, a, b, first, p);
    TiedRowSkipped(first, p, |listings|);
    forall x | x in pages + [m] ensures x in rows {
      if x in pages { PagesAreRows(tables, listings, a, b, p + 1, first, x); } else { ListedIff(rows, a, b, first, m); }
    }
    ShownIffOnPage(pages, m);
    assert tables[0] == rows && m in first && Shown(m) !in ShownList(listings, p + 1);
  }

  /** The same for what the client shows: all of the history always, iff the old rows have distinct instants. */
  lemma HistoryShownIff(rows: seq<Message>, a: UserId, b: UserId, first: seq<Message>)
    requires IsListing(rows, a, b, first) && Distinct(first) && KeyedRows(rows)
    ensures AlwaysShown(rows, a, b, first) <==> DistinctTimes(first)
  {
    if DistinctTimes(first) { DistinctTimesAlwaysShown(rows, a, b, first); } else { TiesHide(rows, a, b, first); }
  }

  /** Page 0 from one listing, or the pages behind it from another one, show the row. */
  ghost predicate OnEitherSide(before: seq<Message>, after: seq<Message>, cut: nat, m: Message) {
    m in Page(before, cut, 0) || m in Page(after, |after|, cut)
  }

  lemma UntiedIsOnASide(before: seq<Message>, after: seq<Message>, cut: nat, m: Message)
    requires NewestFirst(before) && NewestFirst(after) && multiset(before) == multiset(after)
    requires m in before && Untied(after, m)
    ensures OnEitherSide(before, after, cut, m)
  {
    NeverMovesUp(before, after, m);
    var p, q := Position(before, m), Position(after, m);
    if p < cut { OnPage(before, cut, 0, p); } else { OnPage(after, |after|, cut, q); }
  }

  /** The same at one page boundary: another listing of the same rows skips nothing, wherever it is cut. */
  lemma NoSkipAtAnyCutIff(rows: seq<Message>, a: UserId, b: UserId, before: seq<Message>)
    requires IsListing(rows, a, b, before) && Distinct(before)
    ensures (forall after, cut, m | IsListing(rows, a, b, after) && m in before :: OnEitherSide(before, after, cut, m))
        <==> DistinctTimes(before)
  {
    if DistinctTimes(before) {
      forall after, cut: nat, m | IsListing(rows, a, b, after) && m in before
        ensures OnEitherSide(before, after, cut, m)
      {
        forall n | n in after ensures n in before { assert n in multiset(after); }
        UntiedIsOnASide(before, after, cut, m);
      }
    } else {
      var p := AdjacentTie(before);
      SwappedIsListing(rows, a, b, before, p);
      SwappedSkips(before, p, |before|, p + 1);
      assert !OnEitherSide(before, Swapped(before, p), p + 1, before[p + 1]);
    }
  }

  lemma TwoRowPages(x: Message, y: Message)
    ensures Page([x, y], 1, 0) == [x] && Page([x, y], 1, 1) == [y] && Page([x, y], 1, 2) == []
  {
  }

  lemma TwoRowsMatch(x: Message, y: Message)
    requires Matches(x, x.sender, x.receiver) && Matches(y, x.sender, x.receiver)
    ensures Matching([x, y], x.sender, x.receiver) == [x, y]
  {
    assert [x, y][..1] == [x] && [x][..0] == [];
    assert Matching([], x.sender, x.receiver) == [];
    assert Matching([x], x.sender, x.receiver) == [x];
  }

  /** The smallest case: two rows of one instant, pages of one row; the second row is on neither page. */
  lemma TiedRowsSkip() returns (x: Message, y: Message)
    ensures x.createdAt == y.createdAt && x.id != y.id
    ensures IsListing([x, y], "a", "b", [x, y]) && IsListing([x, y], "a", "b", [y, x])
    ensures Page([x, y], 1, 0) == [x] == Page([y, x], 1, 1) && Page([y, x], 1, 2) == []
  {
    x, y := Message(0, "a", "b", "hello", false, 7), Message(1, "b", "a", "hi", false, 7);
    TwoRowPages(x, y);
    TwoRowPages(y, x);
    TwoRowsMatch(x, y);
    assert multiset([x, y]) == multiset([y, x]);
  }
}
