/**
 * Keyset pages: a reader returns the first `limit + 1` rows above a cursor, the store checks them,
 * keeps `limit` and hands out a cursor when one is left over. Following the cursors lists the table.
 */
module KeysetPaging {
  import opened Prelude

  ghost predicate Sorted<K(!new)>(less: (K, K) -> bool, s: seq<K>) {
    forall i, j :: 0 <= i < j < |s| ==> less(s[i], s[j])
  }

  predicate Above<K>(less: (K, K) -> bool, after: Option<K>, k: K) { after.None? || less(after.value, k) }

  // ---- The reader: ORDER BY key LIMIT n. ----

  ghost predicate IsLeast<K(!new)>(less: (K, K) -> bool, s: set<K>, m: K) {
    m in s && forall k :: k in s ==> k == m || less(m, k)
  }

  lemma {:induction false} LeastExists<K(!new)>(less: (K, K) -> bool, s: set<K>)
    requires StrictTotal(less) && s != {}
    ensures exists m :: IsLeast(less, s, m)
    decreases |s|
  {
    var x :| x in s;
    if s == {x} {
      assert IsLeast(less, s, x);
    } else {
      LeastExists(less, s - {x});
      var m :| IsLeast(less, s - {x}, m);
      if less(x, m) {
        forall k | k in s && k != x ensures less(x, k) { if k != m { assert less(m, k); } }
        assert IsLeast(less, s, x);
      } else {
        assert less(m, x) && IsLeast(less, s, m);
      }
    }
  }

  /** The first `n` keys of `s` in order. */
  ghost function First<K(!new)>(less: (K, K) -> bool, s: set<K>, n: nat): seq<K>
    requires StrictTotal(less)
    decreases n
  {
    if n == 0 || s == {} then []
    else
      LeastExists(less, s);
      var m :| IsLeast(less, s, m);
      [m] + First(less, s - {m}, n - 1)
  }

  lemma {:induction false} FirstIsPrefix<K(!new)>(less: (K, K) -> bool, s: set<K>, n: nat)
    requires StrictTotal(less)
    ensures var rows := First(less, s, n);
      && Sorted(less, rows) && Elements(rows) <= s && |rows| == Min(n, |s|)
      && forall k, r :: k in s && k !in rows && r in rows ==> less(r, k)
    decreases n
  {
    if n > 0 && s != {} {
      LeastExists(less, s);
      var rows := First(less, s, n);
      var m := rows[0];
      assert IsLeast(less, s, m) && rows[1..] == First(less, s - {m}, n - 1);
      FirstIsPrefix(less, s - {m}, n - 1);
      assert rows == [m] + rows[1..];
      assert forall r :: r in rows[1..] ==> r in Elements(rows[1..]);
    }
  }

  ghost function Beyond<K(!new)>(less: (K, K) -> bool, table: set<K>, after: Option<K>): set<K> {
    set k | k in table && Above(less, after, k)
  }

  /** What the database returns for a cursor and a row limit. */
  ghost function Rows<K(!new)>(less: (K, K) -> bool, table: set<K>, after: Option<K>, n: nat): seq<K>
    requires StrictTotal(less)
  {
    First(less, Beyond(less, table, after), n)
  }

  // ---- One page, and following the cursors. ----

  datatype Page<K> = Page(items: seq<K>, next: Option<K>)

  /** Keep `limit` rows; the last one kept is the cursor when a row is left over. */
  function PageOf<K>(rows: seq<K>, limit: nat): Page<K>
    requires limit > 0
  {
    Page(rows[..Min(limit, |rows|)], if |rows| > limit then Some(rows[limit - 1]) else None)
  }

  ghost function ReadPage<K(!new)>(less: (K, K) -> bool, table: set<K>, after: Option<K>, limit: nat): Page<K>
    requires StrictTotal(less) && limit > 0
  {
    PageOf(Rows(less, table, after, limit + 1), limit)
  }

  /** A client following `nextCursor`; `tables[i]` is the table as the `i`-th page is read. */
  ghost function Follow<K(!new)>(less: (K, K) -> bool, limit: nat, tables: seq<set<K>>, after: Option<K>): seq<Page<K>>
    requires StrictTotal(less) && limit > 0
    decreases |tables|
  {
    if tables == [] then []
    else
      var page := ReadPage(less, tables[0], after, limit);
      [page] + (if page.next.None? then [] else Follow(less, limit, tables[1..], page.next))
  }

  predicate Completed<K>(pages: seq<Page<K>>) { pages != [] && pages[|pages| - 1].next.None? }

  function Items<K>(pages: seq<Page<K>>): seq<K> {
    if pages == [] then [] else pages[0].items + Items(pages[1..])
  }

  lemma KeptOrBeyond<K(!new)>(less: (K, K) -> bool, s: set<K>, rows: seq<K>, limit: nat, k: K)
    requires Sorted(less, rows) && 0 < limit < |rows| && k in s
    requires forall k, r :: k in s && k !in rows && r in rows ==> less(r, k)
    ensures k in rows[..limit] || less(rows[limit - 1], k)
  {
    assert rows[limit - 1] in rows;
    if k in rows {
      var i :| 0 <= i < |rows| && rows[i] == k;
      if i < limit { assert rows[..limit][i] == k; }
    }
  }

  /** One page: sorted rows of the table above the cursor, and none skipped up to the next cursor. */
  lemma PageIsGapless<K(!new)>(less: (K, K) -> bool, table: set<K>, after: Option<K>, limit: nat)
    requires StrictTotal(less) && limit > 0
    ensures var page := ReadPage(less, table, after, limit);
      && Sorted(less, page.items) && Elements(page.items) <= Beyond(less, table, after)
      && (page.next.None? ==> Elements(page.items) == Beyond(less, table, after))
      && (page.next.Some? ==>
            && |page.items| == limit && page.items[limit - 1] == page.next.value
            && |Beyond(less, table, after)| > limit
            && forall k :: k in Beyond(less, table, after) ==> k in page.items || less(page.next.value, k))
  {
    var s := Beyond(less, table, after);
    var rows := Rows(less, table, after, limit + 1);
    FirstIsPrefix(less, s, limit + 1);
    assert forall r :: r in rows ==> r in Elements(rows);
    if |rows| > limit {
      forall k | k in s ensures k in rows[..limit] || less(rows[limit - 1], k) { KeptOrBeyond(less, s, rows, limit, k); }
    } else {
      SortedCount(less, rows);
      SameSize(Elements(rows), s);
      assert rows[..|rows|] == rows;
    }
  }

  lemma {:induction false} SortedCount<K(!new)>(less: (K, K) -> bool, s: seq<K>)
    requires StrictTotal(less) && Sorted(less, s)
    ensures |Elements(s)| == |s|
  {
    if s != [] {
      SortedCount(less, s[1..]);
      assert s == [s[0]] + s[1..] && s[0] !in s[1..];
      assert Elements(s) == {s[0]} + Elements(s[1..]);
    }
  }

  lemma SameSize<K>(a: set<K>, b: set<K>)
    requires a <= b && |a| == |b|
    ensures a == b
  {
    assert |b - a| == |b| - |a|;
    assert b == a + (b - a);
  }

  // ---- Whole traversals. ----

  lemma {:induction false} Joined<K(!new)>(less: (K, K) -> bool, front: seq<K>, back: seq<K>)
    requires Sorted(less, front) && Sorted(less, back)
    requires forall x, y :: x in front && y in back ==> less(x, y)
    ensures Sorted(less, front + back)
  {}

  lemma ItemsOfFollow<K(!new)>(less: (K, K) -> bool, limit: nat, tables: seq<set<K>>, after: Option<K>)
    requires StrictTotal(less) && limit > 0 && tables != []
    ensures var page := ReadPage(less, tables[0], after, limit);
      Items(Follow(less, limit, tables, after)) ==
        page.items + (if page.next.None? then [] else Items(Follow(less, limit, tables[1..], page.next)))
  {
    var page := ReadPage(less, tables[0], after, limit);
    var rest := if page.next.None? then [] else Follow(less, limit, tables[1..], page.next);
    assert ([page] + rest)[1..] == rest;
  }

  lemma AboveLater<K(!new)>(less: (K, K) -> bool, items: seq<K>, after: Option<K>, next: K, k: K)
    requires StrictTotal(less) && Sorted(less, items) && items != [] && items[|items| - 1] == next
    requires (forall x :: x in items ==> Above(less, after, x)) && less(next, k)
    ensures Above(less, after, k) && forall x :: x in items ==> less(x, k)
  {
    assert next in items;
    forall x | x in items ensures less(x, k) {
      if x != next { assert less(x, next); }
    }
  }

  lemma Appended<K(!new)>(less: (K, K) -> bool, items: seq<K>, after: Option<K>, next: K, rest: seq<K>)
    requires StrictTotal(less) && Sorted(less, items) && items != [] && items[|items| - 1] == next && Sorted(less, rest)
    requires (forall x :: x in items ==> Above(less, after, x)) && (forall k :: k in rest ==> less(next, k))
    ensures Sorted(less, items + rest) && forall k :: k in items + rest ==> Above(less, after, k)
  {
    forall k | k in rest ensures Above(less, after, k) && forall x :: x in items ==> less(x, k) {
      AboveLater(less, items, after, next, k);
    }
    Joined(less, items, rest);
  }

  lemma ItemsAbove<K(!new)>(less: (K, K) -> bool, table: set<K>, after: Option<K>, limit: nat)
    requires StrictTotal(less) && limit > 0
    ensures forall k :: k in ReadPage(less, table, after, limit).items ==> Above(less, after, k)
  {
    PageIsGapless(less, table, after, limit);
    var page := ReadPage(less, table, after, limit);
    assert forall k :: k in page.items ==> k in Elements(page.items);
  }

  /** Items come out in ascending order, so none twice, and all above the cursor. */
  lemma {:induction false} TraversalAscends<K(!new)>(less: (K, K) -> bool, limit: nat, tables: seq<set<K>>, after: Option<K>)
    requires StrictTotal(less) && limit > 0
    ensures var items := Items(Follow(less, limit, tables, after));
      Sorted(less, items) && forall k :: k in items ==> Above(less, after, k)
    decreases |tables|
  {
    if tables != [] {
      var page := ReadPage(less, tables[0], after, limit);
      ItemsOfFollow(less, limit, tables, after);
      PageIsGapless(less, tables[0], after, limit);
      ItemsAbove(less, tables[0], after, limit);
      if page.next.Some? {
        var rest := Items(Follow(less, limit, tables[1..], page.next));
        TraversalAscends(less, limit, tables[1..], page.next);
        assert forall k :: k in rest ==> less(page.next.value, k);
        Appended(less, page.items, after, page.next.value, rest);
      }
    }
  }

  /** Every item was in the table when its page was read. */
  lemma {:induction false} ItemsWerePresent<K(!new)>(less: (K, K) -> bool, limit: nat, tables: seq<set<K>>, after: Option<K>, i: nat)
    requires StrictTotal(less) && limit > 0 && i < |Follow(less, limit, tables, after)|
    ensures i < |tables| && Elements(Follow(less, limit, tables, after)[i].items) <= tables[i]
    decreases |tables|
  {
    PageIsGapless(less, tables[0], after, limit);
    if i > 0 {
      ItemsWerePresent(less, limit, tables[1..], ReadPage(less, tables[0], after, limit).next, i - 1);
    }
  }

  /** A row present in every table read is listed, whatever else is inserted or removed meanwhile. */
  lemma {:induction false} PresentIsListed<K(!new)>(less: (K, K) -> bool, limit: nat, tables: seq<set<K>>, after: Option<K>, k: K)
    requires StrictTotal(less) && limit > 0
    requires Completed(Follow(less, limit, tables, after)) && Above(less, after, k)
    requires forall t :: t in tables ==> k in t
    ensures k in Items(Follow(less, limit, tables, after))
    decreases |tables|
  {
    var page := ReadPage(less, tables[0], after, limit);
    ItemsOfFollow(less, limit, tables, after);
    PageIsGapless(less, tables[0], after, limit);
    assert k in Beyond(less, tables[0], after);
    if k in page.items {
    } else {
      assert k !in Elements(page.items);
      PresentIsListed(less, limit, tables[1..], page.next, k);
    }
  }

  lemma Advances<K(!new)>(less: (K, K) -> bool, all: set<K>, table: set<K>, after: Option<K>, limit: nat)
    requires StrictTotal(less) && limit > 0 && table <= all && ReadPage(less, table, after, limit).next.Some?
    ensures |Beyond(less, all, ReadPage(less, table, after, limit).next)| + limit <= |Beyond(less, all, after)|
  {
    var page := ReadPage(less, table, after, limit);
    PageIsGapless(less, table, after, limit);
    SortedCount(less, page.items);
    var listed, left := Elements(page.items), Beyond(less, all, page.next);
    assert page.next.value in listed;
    forall k | k in listed ensures k !in left {
      var i :| 0 <= i < limit && page.items[i] == k;
    }
    assert |listed + left| == |listed| + |left|;
    assert listed + left <= Beyond(less, all, after);
    SubsetSize(listed + left, Beyond(less, all, after));
  }

  lemma SubsetSize<K>(a: set<K>, b: set<K>)
    requires a <= b
    ensures |a| <= |b|
  {
    assert b == a + (b - a);
  }

  /** When only rows of a finite set ever appear, the traversal ends: each page but the last uses up `limit` of them. */
  lemma {:induction false} TraversalEnds<K(!new)>(less: (K, K) -> bool, limit: nat, tables: seq<set<K>>, after: Option<K>, all: set<K>)
    requires StrictTotal(less) && limit > 0 && (forall t :: t in tables ==> t <= all)
    requires |tables| * limit > |Beyond(less, all, after)|
    ensures Completed(Follow(less, limit, tables, after))
    decreases |tables|
  {
    var page := ReadPage(less, tables[0], after, limit);
    var pages := Follow(less, limit, tables, after);
    if page.next.Some? {
      Advances(less, all, tables[0], after, limit);
      assert (|tables| - 1) * limit == |tables| * limit - limit;
      TraversalEnds(less, limit, tables[1..], page.next, all);
      assert pages == [page] + Follow(less, limit, tables[1..], page.next);
    }
  }

  /** Over an unchanging table the pages list exactly its rows, ascending, in fewer than `|table| / limit + 2` reads. */
  lemma StaticTraversal<K(!new)>(less: (K, K) -> bool, limit: nat, table: set<K>, calls: nat)
    requires StrictTotal(less) && limit > 0 && calls * limit > |table|
    ensures var pages := Follow(less, limit, seq(calls, _ => table), None);
      && Completed(pages) && Sorted(less, Items(pages)) && Elements(Items(pages)) == table && |Items(pages)| == |table|
  {
    assert Beyond(less, table, None) == table;
    TraversalEnds(less, limit, seq(calls, _ => table), None, table);
    StaticItems(less, limit, table, calls);
  }

  lemma StaticItems<K(!new)>(less: (K, K) -> bool, limit: nat, table: set<K>, calls: nat)
    requires StrictTotal(less) && limit > 0 && Completed(Follow(less, limit, seq(calls, _ => table), None))
    ensures var pages := Follow(less, limit, seq(calls, _ => table), None);
      Sorted(less, Items(pages)) && Elements(Items(pages)) == table && |Items(pages)| == |table|
  {
    var tables := seq(calls, _ => table);
    var pages := Follow(less, limit, tables, None);
    TraversalAscends(less, limit, tables, None);
    forall k | k in table ensures k in Items(pages) { PresentIsListed(less, limit, tables, None, k); }
    forall k | k in Items(pages) ensures k in table { ListedWasPresent(less, limit, tables, None, table, k); }
    assert Elements(Items(pages)) == table;
    SortedCount(less, Items(pages));
  }

  lemma {:induction false} ListedWasPresent<K(!new)>(
      less: (K, K) -> bool, limit: nat, tables: seq<set<K>>, after: Option<K>, all: set<K>, k: K)
    requires StrictTotal(less) && limit > 0 && (forall t :: t in tables ==> t <= all)
    requires k in Items(Follow(less, limit, tables, after))
    ensures k in all
    decreases |tables|
  {
    var page := ReadPage(less, tables[0], after, limit);
    ItemsOfFollow(less, limit, tables, after);
    PageIsGapless(less, tables[0], after, limit);
    if k in page.items {
      assert k in Elements(page.items) && tables[0] in tables;
      assert k in tables[0];
    } else {
      ListedWasPresent(less, limit, tables[1..], page.next, all, k);
    }
  }

  /** The loop's check: each row above the one before. */
  lemma {:induction false} SortedFromNeighbours<K(!new)>(less: (K, K) -> bool, s: seq<K>)
    requires StrictTotal(less) && forall i :: 0 < i < |s| ==> less(s[i - 1], s[i])
    ensures Sorted(less, s)
  {
    if s != [] {
      var front := s[..|s| - 1];
      SortedFromNeighbours(less, front);
      forall i, j | 0 <= i < j < |s| ensures less(s[i], s[j]) {
        if j < |s| - 1 {
          assert less(front[i], front[j]);
        } else if i < j - 1 {
          assert less(front[i], front[j - 1]) && less(s[j - 1], s[j]);
        }
      }
    }
  }
}

/** The three list operations of the policy and grant stores. */
module PagedLists {
  import opened Prelude
  import opened KeysetPaging
  import opened Decimal
  import opened RevisionIds
  import Lex

  const DEFAULT_PAGE: nat := 25
  const MAX_PAGE: nat := 50

  /** `requirePage`; the outer `None` is the input error. */
  function RequirePage(value: Option<int>): (limit: Option<nat>)
    ensures value.None? ==> limit == Some(25)
    ensures value.Some? && 1 <= value.value <= 50 ==> limit.Some? && limit.value == value.value
    ensures value.Some? && !(1 <= value.value <= 50) ==> limit == None
  {
    match value
    case None => Some(DEFAULT_PAGE)
    case Some(n) => if 1 <= n <= MAX_PAGE then Some(n) else None
  }

  predicate StartsAbove<K>(less: (K, K) -> bool, after: Option<K>, keys: seq<K>) {
    keys != [] ==> Above(less, after, keys[0])
  }

  // ---- Policy roots, in code-unit order of their ids. ----

  datatype RootRow = RootRow(policyId: string, organization: string)

  lemma AscendingIds(ids: seq<string>)
    requires forall i :: 0 < i < |ids| ==> Lex.Less(ids[i - 1], ids[i])
    ensures Sorted(Lex.Less, ids)
  {
    Lex.IsStrictTotal();
    SortedFromNeighbours(Lex.Less, ids);
  }

  function RootIds(rows: seq<RootRow>): seq<string> { seq(|rows|, i requires 0 <= i < |rows| => rows[i].policyId) }

  ghost predicate RootsAccepted(rows: seq<RootRow>, organization: string, after: Option<string>, limit: nat) {
    && |rows| <= limit + 1 && (forall r :: r in rows ==> r.organization == organization)
    && Sorted(Lex.Less, RootIds(rows)) && StartsAbove(Lex.Less, after, RootIds(rows))
  }

  /** The checks of `listPolicyRoots` on the whole lookahead, then the page; `None` is the output error. */
  method ListPolicyRoots(rows: seq<RootRow>, organization: string, after: Option<string>, limit: nat)
    returns (page: Option<Page<string>>)
    requires limit > 0
    ensures page.Some? <==> RootsAccepted(rows, organization, after, limit)
    ensures page.Some? ==> page.value == PageOf(RootIds(rows), limit)
  {
    if |rows| > limit + 1 { return None; }
    var ids := RootIds(rows);
    var previous: Option<string> := None;
    for n := 0 to |rows|
      invariant previous == if n == 0 then None else Some(ids[n - 1])
      invariant forall i :: 0 <= i < n ==> rows[i].organization == organization
      invariant forall i :: 0 < i < n ==> Lex.Less(ids[i - 1], ids[i])
    {
      if rows[n].organization != organization { return None; }
      if previous.Some? && !Lex.Less(previous.value, rows[n].policyId) {
        assert !Lex.Less(ids[n - 1], ids[n]);
        return None;
      }
      previous := Some(rows[n].policyId);
    }
    AscendingIds(ids);
    var visible := ids[..Min(limit, |ids|)];
    var next := if |rows| > limit then Some(visible[|visible| - 1]) else None;
    if after.Some? && visible != [] && !Lex.Less(after.value, visible[0]) { return None; }
    page := Some(Page(visible, next));
  }

  // ---- Policy revisions, in numeric order. ----

  datatype RevisionRow = RevisionRow(policyId: string, organization: string, subject: string, revision: string)

  function Number(t: string): nat { if Digits(t) then Value(t) else 0 }

  function RevisionNumbers(rows: seq<RevisionRow>): seq<nat> {
    seq(|rows|, i requires 0 <= i < |rows| => Number(rows[i].revision))
  }

  function Lower(a: nat, b: nat): bool { a < b }

  function Revisions(rows: seq<RevisionRow>): seq<string> { seq(|rows|, i requires 0 <= i < |rows| => rows[i].revision) }

  predicate RowBound(r: RevisionRow, organization: string, policy: string, subject: string) {
    r.organization == organization && r.policyId == policy && r.subject == subject && RevisionNumber(r.revision)
  }

  predicate RowsBound(rows: seq<RevisionRow>, organization: string, policy: string) {
    forall i :: 0 <= i < |rows| ==> RowBound(rows[i], organization, policy, rows[0].subject)
  }

  ghost predicate RevisionsAccepted(
    rows: seq<RevisionRow>, organization: string, policy: string, after: Option<string>, limit: nat)
  {
    && |rows| <= limit + 1 && RowsBound(rows, organization, policy)
    && Sorted(Lower, RevisionNumbers(rows)) && StartsAbove(Lower, NumberOf(after), RevisionNumbers(rows))
  }

  function NumberOf(after: Option<string>): Option<nat> { if after.None? then None else Some(Number(after.value)) }

  /** The page's numbers, behind its revision texts. */
  function Numbers(page: Page<string>): Page<nat> {
    Page(seq(|page.items|, i requires 0 <= i < |page.items| => Number(page.items[i])), NumberOf(page.next))
  }

  /** The loop: one organization, policy and subject, canonical revisions, numerically ascending. */
  method CheckRevisions(rows: seq<RevisionRow>, organization: string, policy: string) returns (ok: bool)
    ensures ok <==> RowsBound(rows, organization, policy) && Sorted(Lower, RevisionNumbers(rows))
  {
    var numbers := RevisionNumbers(rows);
    var previous: Option<nat> := None;
    var pageSubject: Option<string> := None;
    for n := 0 to |rows|
      invariant previous == if n == 0 then None else Some(numbers[n - 1])
      invariant pageSubject == if n == 0 then None else Some(rows[0].subject)
      invariant forall i :: 0 <= i < n ==> RowBound(rows[i], organization, policy, rows[0].subject)
      invariant forall i :: 0 < i < n ==> Lower(numbers[i - 1], numbers[i])
    {
      var item := rows[n];
      var bound := item.organization == organization && item.policyId == policy && RevisionNumber(item.revision);
      if !bound {
        assert !RowBound(rows[n], organization, policy, rows[0].subject);
        return false;
      }
      if previous.Some? && !(previous.value < Number(item.revision)) {
        assert !Lower(numbers[n - 1], numbers[n]);
        return false;
      }
      previous := Some(Number(item.revision));
      if pageSubject.None? {
        pageSubject := Some(item.subject);
      } else if item.subject != pageSubject.value {
        assert !RowBound(rows[n], organization, policy, rows[0].subject);
        return false;
      }
    }
    SortedFromNeighbours(Lower, numbers);
    ok := true;
  }

  /** The checks of `listPolicyRevisions`, with `BigInt` comparisons, then the page of revision texts. */
  method ListPolicyRevisions(
      rows: seq<RevisionRow>, organization: string, policy: string, after: Option<string>, limit: nat)
    returns (page: Option<Page<string>>)
    requires limit > 0
    ensures page.Some? <==> RevisionsAccepted(rows, organization, policy, after, limit)
    ensures page.Some? ==> page.value == PageOf(Revisions(rows), limit)
  {
    if |rows| > limit + 1 { return None; }
    var ok := CheckRevisions(rows, organization, policy);
    if !ok { return None; }
    var visible := Revisions(rows)[..Min(limit, |rows|)];
    var next := if |rows| > limit then Some(visible[|visible| - 1]) else None;
    if after.Some? && visible != [] && Number(visible[0]) <= Number(after.value) { return None; }
    page := Some(Page(visible, next));
  }

  /** Behind an accepted page of texts stands the page of their numbers, and each text is its number's decimal text. */
  lemma PageOfNumbers(rows: seq<RevisionRow>, organization: string, policy: string, limit: nat)
    requires limit > 0 && RowsBound(rows, organization, policy)
    ensures Numbers(PageOf(Revisions(rows), limit)) == PageOf(RevisionNumbers(rows), limit)
    ensures forall i :: 0 <= i < |rows| ==> rows[i].revision == Print(RevisionNumbers(rows)[i])
  {
    forall i | 0 <= i < |rows| ensures rows[i].revision == Print(RevisionNumbers(rows)[i]) {
      assert RowBound(rows[i], organization, policy, rows[0].subject);
      RevisionNumberIff(rows[i].revision);
    }
  }

  // ---- Grants, in code-unit order of their ids; an empty answer is one marked row. ----

  datatype GrantRow = GrantRow(organization: string, found: bool, grantId: string)

  function GrantIds(rows: seq<GrantRow>): seq<string> { seq(|rows|, i requires 0 <= i < |rows| => rows[i].grantId) }

  /** The rows that carry a grant: none of the single marked row. */
  function Fetched(rows: seq<GrantRow>): seq<string> {
    if |rows| == 1 && !rows[0].found then [] else GrantIds(rows)
  }

  ghost predicate GrantsAccepted(rows: seq<GrantRow>, organization: string, after: Option<string>, limit: nat) {
    && 1 <= |rows| <= limit + 1 && (forall r :: r in rows ==> r.organization == organization)
    && (|rows| > 1 ==> forall r :: r in rows ==> r.found)
    && Sorted(Lex.Less, Fetched(rows)) && StartsAbove(Lex.Less, after, Fetched(rows))
  }

  /** The checks of `listGrants`. */
  method ListGrants(rows: seq<GrantRow>, organization: string, after: Option<string>, limit: nat)
    returns (page: Option<Page<string>>)
    requires limit > 0
    ensures page.Some? <==> GrantsAccepted(rows, organization, after, limit)
    ensures page.Some? ==> page.value == PageOf(Fetched(rows), limit)
  {
    if |rows| == 0 || |rows| > limit + 1 { return None; }
    for n := 0 to |rows|
      invariant forall i :: 0 <= i < n ==> rows[i].organization == organization
    {
      if rows[n].organization != organization { return None; }
    }
    var fetched := [];
    if |rows| != 1 || rows[0].found {
      for n := 0 to |rows|
        invariant forall i :: 0 <= i < n ==> rows[i].found
        invariant fetched == GrantIds(rows)[..n]
      {
        if !rows[n].found { return None; }
        fetched := fetched + [rows[n].grantId];
      }
      assert GrantIds(rows)[..|rows|] == GrantIds(rows);
    }
    var index := 1;
    while index < |fetched|
      invariant 1 <= index
      invariant forall i :: 0 < i < index && i < |fetched| ==> Lex.Less(fetched[i - 1], fetched[i])
    {
      if !Lex.Less(fetched[index - 1], fetched[index]) { return None; }
      index := index + 1;
    }
    AscendingIds(fetched);
    if after.Some? && fetched != [] && !Lex.Less(after.value, fetched[0]) { return None; }
    var items := fetched[..Min(limit, |fetched|)];
    var next := if |fetched| > limit && items != [] then Some(items[|items| - 1]) else None;
    page := Some(Page(items, next));
  }

  // ---- Honest answers are accepted, so the pages are those of the traversal. ----

  lemma NumericOrder()
    ensures StrictTotal(Lower)
  {}

  /** The database's answers in the two orders, and the pages made of them. */
  ghost function IdRows(table: set<string>, after: Option<string>, n: nat): seq<string> {
    Lex.IsStrictTotal();
    Rows(Lex.Less, table, after, n)
  }

  ghost function IdPage(table: set<string>, after: Option<string>, limit: nat): Page<string>
    requires limit > 0
  {
    Lex.IsStrictTotal();
    ReadPage(Lex.Less, table, after, limit)
  }

  ghost function NumberRows(table: set<nat>, after: Option<nat>, n: nat): seq<nat> {
    NumericOrder();
    Rows(Lower, table, after, n)
  }

  ghost function NumberPage(table: set<nat>, after: Option<nat>, limit: nat): Page<nat>
    requires limit > 0
  {
    NumericOrder();
    ReadPage(Lower, table, after, limit)
  }

  lemma FirstStartsAbove<K(!new)>(less: (K, K) -> bool, table: set<K>, after: Option<K>, n: nat)
    requires StrictTotal(less)
    ensures var rows := Rows(less, table, after, n);
      Sorted(less, rows) && StartsAbove(less, after, rows) && |rows| <= n
  {
    FirstIsPrefix(less, Beyond(less, table, after), n);
    var rows := Rows(less, table, after, n);
    assert rows != [] ==> rows[0] in Elements(rows);
  }

  /** The database's answer for roots passes the checks and is the page of the keyset order. */
  lemma HonestRoots(rows: seq<RootRow>, organization: string, table: set<string>, after: Option<string>, limit: nat)
    requires limit > 0 && RootIds(rows) == IdRows(table, after, limit + 1)
    requires forall r :: r in rows ==> r.organization == organization
    ensures RootsAccepted(rows, organization, after, limit)
    ensures PageOf(RootIds(rows), limit) == IdPage(table, after, limit)
  {
    Lex.IsStrictTotal();
    FirstStartsAbove(Lex.Less, table, after, limit + 1);
  }

  lemma HonestGrants(rows: seq<GrantRow>, organization: string, table: set<string>, after: Option<string>, limit: nat)
    requires limit > 0 && Fetched(rows) == IdRows(table, after, limit + 1)
    requires rows != [] && (forall r :: r in rows ==> r.organization == organization)
    requires |rows| > 1 ==> forall r :: r in rows ==> r.found
    ensures GrantsAccepted(rows, organization, after, limit)
    ensures PageOf(Fetched(rows), limit) == IdPage(table, after, limit)
  {
    Lex.IsStrictTotal();
    FirstStartsAbove(Lex.Less, table, after, limit + 1);
  }

  lemma HonestRevisions(
      rows: seq<RevisionRow>, organization: string, policy: string, subject: string, table: set<nat>,
      after: Option<string>, limit: nat)
    requires limit > 0 && RevisionNumbers(rows) == NumberRows(table, NumberOf(after), limit + 1)
    requires forall i :: 0 <= i < |rows| ==> RowBound(rows[i], organization, policy, subject)
    ensures RevisionsAccepted(rows, organization, policy, after, limit)
    ensures PageOf(RevisionNumbers(rows), limit) == NumberPage(table, NumberOf(after), limit)
  {
    NumericOrder();
    FirstStartsAbove(Lower, table, NumberOf(after), limit + 1);
  }

  // ---- Following the text cursors of the revisions. ----

  /** An honest answer of the database to a page request. */
  ghost predicate Answers(
      rows: seq<RevisionRow>, organization: string, policy: string, subject: string, table: set<nat>,
      after: Option<string>, limit: nat)
  {
    && RevisionNumbers(rows) == NumberRows(table, NumberOf(after), limit + 1)
    && forall i :: 0 <= i < |rows| ==> RowBound(rows[i], organization, policy, subject)
  }

  /** The pages a client is given when it presents each page's cursor to get the next. */
  ghost predicate FollowsTexts(
      answers: seq<seq<RevisionRow>>, pages: seq<Page<string>>, organization: string, policy: string, subject: string,
      table: set<nat>, after: Option<string>, limit: nat)
    requires limit > 0
    decreases |pages|
  {
    && |answers| == |pages|
    && (pages == [] ||
        (&& Answers(answers[0], organization, policy, subject, table, after, limit)
         && pages[0] == PageOf(Revisions(answers[0]), limit)
         && if pages[0].next.None? then |pages| == 1
            else FollowsTexts(answers[1..], pages[1..], organization, policy, subject, table, pages[0].next, limit)))
  }

  function AllNumbers(pages: seq<Page<string>>): seq<Page<nat>> {
    if pages == [] then [] else [Numbers(pages[0])] + AllNumbers(pages[1..])
  }

  lemma AnsweredPage(
      rows: seq<RevisionRow>, organization: string, policy: string, subject: string, table: set<nat>,
      after: Option<string>, limit: nat)
    requires limit > 0 && Answers(rows, organization, policy, subject, table, after, limit)
    ensures Numbers(PageOf(Revisions(rows), limit)) == NumberPage(table, NumberOf(after), limit)
    ensures forall t :: t in PageOf(Revisions(rows), limit).items ==> RevisionNumber(t)
  {
    HonestRevisions(rows, organization, policy, subject, table, after, limit);
    PageOfNumbers(rows, organization, policy, limit);
    assert forall i :: 0 <= i < |rows| ==> RowBound(rows[i], organization, policy, subject);
  }

  /** The numeric traversal of an unchanging table. */
  ghost function StaticPages(table: set<nat>, after: Option<nat>, limit: nat, calls: nat): seq<Page<nat>>
    requires limit > 0
  {
    NumericOrder();
    Follow(Lower, limit, seq(calls, _ => table), after)
  }

  lemma StaticStep(table: set<nat>, after: Option<nat>, limit: nat, calls: nat)
    requires limit > 0 && calls > 0
    ensures var page := NumberPage(table, after, limit);
      StaticPages(table, after, limit, calls) ==
        [page] + (if page.next.None? then [] else StaticPages(table, page.next, limit, calls - 1))
  {
    NumericOrder();
    assert seq(calls, _ => table)[1..] == seq(calls - 1, _ => table);
  }

  /** Behind the text pages stand the pages of the numeric traversal. */
  lemma {:induction false} TextsFollowNumbers(
      answers: seq<seq<RevisionRow>>, pages: seq<Page<string>>, organization: string, policy: string, subject: string,
      table: set<nat>, after: Option<string>, limit: nat)
    requires limit > 0 && FollowsTexts(answers, pages, organization, policy, subject, table, after, limit)
    ensures AllNumbers(pages) == StaticPages(table, NumberOf(after), limit, |pages|)
    decreases |pages|
  {
    if pages != [] {
      AnsweredPage(answers[0], organization, policy, subject, table, after, limit);
      StaticStep(table, NumberOf(after), limit, |pages|);
      assert AllNumbers(pages) == [Numbers(pages[0])] + AllNumbers(pages[1..]);
      assert Numbers(pages[0]).next == NumberOf(pages[0].next);
      if pages[0].next.None? {
        assert pages[1..] == [];
      } else {
        TextsFollowNumbers(answers[1..], pages[1..], organization, policy, subject, table, pages[0].next, limit);
      }
    }
  }

  lemma {:induction false} TextsAreRevisions(
      answers: seq<seq<RevisionRow>>, pages: seq<Page<string>>, organization: string, policy: string, subject: string,
      table: set<nat>, after: Option<string>, limit: nat)
    requires limit > 0 && FollowsTexts(answers, pages, organization, policy, subject, table, after, limit)
    ensures forall t :: t in Items(pages) ==> RevisionNumber(t)
    decreases |pages|
  {
    if pages != [] {
      AnsweredPage(answers[0], organization, policy, subject, table, after, limit);
      assert Items(pages) == pages[0].items + Items(pages[1..]);
      if pages[0].next.None? {
        assert pages[1..] == [];
      } else {
        TextsAreRevisions(answers[1..], pages[1..], organization, policy, subject, table, pages[0].next, limit);
      }
    }
  }

  lemma {:induction false} ItemsOfNumbers(pages: seq<Page<string>>)
    ensures |Items(AllNumbers(pages))| == |Items(pages)|
    ensures forall i :: 0 <= i < |Items(pages)| ==> Items(AllNumbers(pages))[i] == Number(Items(pages)[i])
  {
    if pages != [] {
      ItemsOfNumbers(pages[1..]);
      assert AllNumbers(pages)[1..] == AllNumbers(pages[1..]);
      var first, texts, numbers := pages[0].items, Items(pages[1..]), Items(AllNumbers(pages[1..]));
      assert Items(pages) == first + texts && Items(AllNumbers(pages)) == Numbers(pages[0]).items + numbers;
      forall i | 0 <= i < |Items(pages)| ensures Items(AllNumbers(pages))[i] == Number(Items(pages)[i]) {
        if i >= |first| { assert Items(pages)[i] == texts[i - |first|]; }
      }
    }
  }

  lemma {:induction false} LastOfNumbers(pages: seq<Page<string>>)
    ensures |AllNumbers(pages)| == |pages|
    ensures pages != [] ==> AllNumbers(pages)[|pages| - 1] == Numbers(pages[|pages| - 1])
  {
    if pages != [] { LastOfNumbers(pages[1..]); }
  }

  /**
   * A client that follows the text cursors over an unchanging table, to the end or for enough calls,
   * gets to the end and is given each revision's text exactly once, in numeric order.
   */
  lemma RevisionsListedOnce(
      answers: seq<seq<RevisionRow>>, pages: seq<Page<string>>, organization: string, policy: string, subject: string,
      table: set<nat>, limit: nat)
    requires limit > 0 && FollowsTexts(answers, pages, organization, policy, subject, table, None, limit)
    requires Completed(pages) || |pages| * limit > |table|
    ensures Completed(pages) && |Items(pages)| == |table|
    ensures forall i, j :: 0 <= i < j < |Items(pages)| ==> Number(Items(pages)[i]) < Number(Items(pages)[j])
    ensures forall i :: 0 <= i < |Items(pages)| ==> Items(pages)[i] == Print(Number(Items(pages)[i]))
    ensures forall k: nat :: k in table <==> Print(k) in Items(pages)
  {
    NumericOrder();
    TextsFollowNumbers(answers, pages, organization, policy, subject, table, None, limit);
    TextsAreRevisions(answers, pages, organization, policy, subject, table, None, limit);
    LastOfNumbers(pages);
    if |pages| * limit > |table| {
      StaticTraversal(Lower, limit, table, |pages|);
    } else {
      StaticItems(Lower, limit, table, |pages|);
    }
    ItemsOfNumbers(pages);
    var numbers := Items(AllNumbers(pages));
    forall i, j | 0 <= i < j < |Items(pages)| ensures Number(Items(pages)[i]) < Number(Items(pages)[j]) {
      assert Lower(numbers[i], numbers[j]);
    }
    forall i | 0 <= i < |Items(pages)| ensures Items(pages)[i] == Print(Number(Items(pages)[i])) {
      RevisionNumberIff(Items(pages)[i]);
    }
    forall k: nat ensures k in table <==> Print(k) in Items(pages) {
      assert k in table <==> k in Elements(numbers);
      TextAmong(Items(pages), numbers, k);
    }
  }

  lemma TextAmong(texts: seq<string>, numbers: seq<nat>, k: nat)
    requires |numbers| == |texts|
    requires forall i :: 0 <= i < |texts| ==> numbers[i] == Number(texts[i]) && texts[i] == Print(numbers[i])
    ensures Print(k) in texts <==> k in numbers
  {
    PrintShape(k);
    if Print(k) in texts {
      var i :| 0 <= i < |texts| && texts[i] == Print(k);
      assert numbers[i] == k;
    }
    if k in numbers {
      var i :| 0 <= i < |numbers| && numbers[i] == k;
      assert texts[i] == Print(k);
    }
  }
}
