/** The order table and the queries the repository declares on it: the
    five-criteria filter (paginated and unpaginated), the inclusive date-range
    query, the status count, and the by-id / by-number lookups.

    The table is a map from id to order together with the engine's scan order
    of the ids; a query filters the rows in scan order and then sorts them by
    order date, newest first. SQL leaves the order of equal dates open; the
    stable sort used here fixes it to scan order. */
module OrderRepository {
  import opened Options
  import opened Seqs
  import opened Text
  import opened Orders

  // ---------------------------------------------------------------------------
  // Criteria and the composed predicate
  // ---------------------------------------------------------------------------

  /** The five optional filters; `None` is a `null` query parameter. */
  datatype Criteria = Criteria(
    orderNumber: Option<string>,
    customerName: Option<string>,
    status: Option<Status>,
    startDate: Option<Timestamp>,
    endDate: Option<Timestamp>)

  const NoCriteria: Criteria := Criteria(None, None, None, None, None)

  /** The `WHERE` clause shared by `findOrdersWithFilters` and
      `findOrdersForExport`: a conjunction in which a `null` criterion
      contributes `true`. The order number is a case-sensitive substring test,
      the customer name a substring test after lower-casing both sides, the
      status an equality, and the two dates inclusive bounds. */
  predicate Matches(c: Criteria, o: Order) {
    && (c.orderNumber.None? || Contains(o.orderNumber, c.orderNumber.value))
    && (c.customerName.None? || Contains(Lower(o.customerName), Lower(c.customerName.value)))
    && (c.status.None? || o.status == c.status.value)
    && (c.startDate.None? || o.orderDate >= c.startDate.value)
    && (c.endDate.None? || o.orderDate <= c.endDate.value)
  }

  /** Each criterion read on its own terms: substring occurrence, case-folded
      substring occurrence, equality and inclusive bounds. */
  lemma MatchesMeaning(c: Criteria, o: Order)
    ensures Matches(c, o) <==>
      && (c.orderNumber.Some? ==> IsInfix(c.orderNumber.value, o.orderNumber))
      && (c.customerName.Some? ==> IsInfix(Lower(c.customerName.value), Lower(o.customerName)))
      && (c.status.Some? ==> o.status == c.status.value)
      && (c.startDate.Some? ==> c.startDate.value <= o.orderDate)
      && (c.endDate.Some? ==> o.orderDate <= c.endDate.value)
  {
  }

  /** With no criteria every order matches. */
  lemma NoCriteriaMatchesAll(o: Order)
    ensures Matches(NoCriteria, o)
  {
  }

  /** An empty text criterion (`LIKE '%%'`) filters nothing, exactly like a
      missing one. */
  lemma EmptyTextCriteriaMatchAll(c: Criteria, o: Order)
    requires c.orderNumber == Some("") || c.orderNumber.None?
    requires c.customerName == Some("") || c.customerName.None?
    ensures Matches(c, o) <==> Matches(c.(orderNumber := None, customerName := None), o)
  {
    EmptyIsInfix(o.orderNumber);
    EmptyIsInfix(Lower(o.customerName));
  }

  // ---------------------------------------------------------------------------
  // Filtering and ordering
  // ---------------------------------------------------------------------------

  /** The rows of `s` satisfying `p`, in their original order. */
  function FilterBy(s: seq<Order>, p: Order -> bool): (r: seq<Order>)
    ensures |r| <= |s|
    ensures forall i :: 0 <= i < |r| ==> p(r[i])
    ensures forall o :: multiset(r)[o] == (if p(o) then multiset(s)[o] else 0)
  {
    if |s| == 0 then
      []
    else
      assert s == [s[0]] + s[1..];
      (if p(s[0]) then [s[0]] else []) + FilterBy(s[1..], p)
  }

  /** Two predicates that agree on every order select the same rows. */
  lemma {:induction false} FilterByCongruent(s: seq<Order>, p: Order -> bool, q: Order -> bool)
    requires forall o :: p(o) == q(o)
    ensures FilterBy(s, p) == FilterBy(s, q)
  {
    if |s| > 0 {
      FilterByCongruent(s[1..], p, q);
    }
  }

  /** Newest first: order dates never increase along the sequence. */
  predicate SortedByDateDesc(s: seq<Order>) {
    forall i, j :: 0 <= i < j < |s| ==> s[i].orderDate >= s[j].orderDate
  }

  /** Puts `o` in front of the first row that is not newer than it. */
  function InsertByDate(o: Order, s: seq<Order>): (r: seq<Order>)
    ensures multiset(r) == multiset(s) + multiset{o}
  {
    if |s| == 0 || o.orderDate >= s[0].orderDate then
      [o] + s
    else
      assert s == [s[0]] + s[1..];
      [s[0]] + InsertByDate(o, s[1..])
  }

  /** Inserting an order no newer than `d` into rows no newer than `d`
      yields rows no newer than `d`. */
  lemma {:induction false} InsertByDateBounded(o: Order, s: seq<Order>, d: Timestamp)
    requires o.orderDate <= d
    requires forall i :: 0 <= i < |s| ==> s[i].orderDate <= d
    ensures forall i :: 0 <= i < |InsertByDate(o, s)| ==> InsertByDate(o, s)[i].orderDate <= d
  {
    if |s| > 0 && o.orderDate < s[0].orderDate {
      InsertByDateBounded(o, s[1..], d);
    }
  }

  /** Inserting into a newest-first list keeps it newest first. */
  lemma {:induction false} InsertByDateSorted(o: Order, s: seq<Order>)
    requires SortedByDateDesc(s)
    ensures SortedByDateDesc(InsertByDate(o, s))
  {
    if |s| == 0 || o.orderDate >= s[0].orderDate {
      assert forall i :: 0 <= i < |s| ==> o.orderDate >= s[i].orderDate;
    } else {
      InsertByDateSorted(o, s[1..]);
      InsertByDateBounded(o, s[1..], s[0].orderDate);
    }
  }

  /** `ORDER BY o.orderDate DESC`, stable with respect to the input order. */
  function SortByDateDesc(s: seq<Order>): (r: seq<Order>)
    ensures SortedByDateDesc(r)
    ensures multiset(r) == multiset(s)
  {
    if |s| == 0 then
      []
    else
      assert s == [s[0]] + s[1..];
      var sortedRest := SortByDateDesc(s[1..]);
      InsertByDateSorted(s[0], sortedRest);
      InsertByDate(s[0], sortedRest)
  }

  // ---------------------------------------------------------------------------
  // The table
  // ---------------------------------------------------------------------------

  /** Stored orders by id, with the ids in the engine's scan order. */
  datatype Repository = Repository(rows: map<int, Order>, scan: seq<int>)

  /** The scan lists every stored id exactly once, and each stored order
      carries its own key as its id. */
  predicate Valid(repo: Repository) {
    && Distinct(repo.scan)
    && (forall i :: 0 <= i < |repo.scan| ==> repo.scan[i] in repo.rows)
    && (forall k :: k in repo.rows ==> k in repo.scan)
    && (forall k :: k in repo.rows ==> repo.rows[k].id == Some(k))
  }

  function RowsOf(rows: map<int, Order>, keys: seq<int>): (r: seq<Order>)
    requires forall i :: 0 <= i < |keys| ==> keys[i] in rows
    ensures |r| == |keys|
    ensures forall i :: 0 <= i < |keys| ==> r[i] == rows[keys[i]]
  {
    if |keys| == 0 then [] else [rows[keys[0]]] + RowsOf(rows, keys[1..])
  }

  /** The stored orders in scan order. */
  function Table(repo: Repository): (t: seq<Order>)
    requires Valid(repo)
    ensures |t| == |repo.scan|
    ensures forall i :: 0 <= i < |t| ==> t[i] == repo.rows[repo.scan[i]] && t[i].id == Some(repo.scan[i])
  {
    ScannedRowsCarryTheirIds(repo);
    RowsOf(repo.rows, repo.scan)
  }

  lemma ScannedRowsCarryTheirIds(repo: Repository)
    requires Valid(repo)
    ensures forall i :: 0 <= i < |repo.scan| ==> repo.rows[repo.scan[i]].id == Some(repo.scan[i])
  {
    forall i | 0 <= i < |repo.scan| ensures repo.rows[repo.scan[i]].id == Some(repo.scan[i]) {
      var k := repo.scan[i];
      assert k in repo.rows;
    }
  }

  /** The scan holds exactly the stored ids. */
  lemma ScanIsKeys(repo: Repository)
    requires Valid(repo)
    ensures forall x :: x in repo.scan <==> x in repo.rows
  {
    forall x | x in repo.scan ensures x in repo.rows {
      var i :| 0 <= i < |repo.scan| && repo.scan[i] == x;
    }
  }

  /** The table has one row per stored order (`count()` rows). */
  lemma TableLength(repo: Repository)
    requires Valid(repo)
    ensures |Table(repo)| == |repo.rows|
  {
    DistinctCardinality(repo.scan);
    ScanIsKeys(repo);
    var ids := set x | x in repo.scan;
    assert forall x :: x in ids <==> x in repo.rows;
    assert ids == repo.rows.Keys;
  }

  /** No order is listed twice: the ids of the rows are pairwise different. */
  lemma TableDistinct(repo: Repository)
    requires Valid(repo)
    ensures Distinct(Table(repo))
  {
    var t := Table(repo);
    forall i, j | 0 <= i < j < |t| ensures t[i] != t[j] {
      assert t[i].id == Some(repo.scan[i]) && t[j].id == Some(repo.scan[j]);
    }
  }

  /** The rows of the table are exactly the stored orders. */
  lemma TableMembership(repo: Repository, o: Order)
    requires Valid(repo)
    ensures o in Table(repo) <==> exists k :: k in repo.rows && repo.rows[k] == o
  {
    var t := Table(repo);
    if o in t {
      var i :| 0 <= i < |t| && t[i] == o;
      assert repo.scan[i] in repo.rows && repo.rows[repo.scan[i]] == o;
    }
    if exists k :: k in repo.rows && repo.rows[k] == o {
      var k :| k in repo.rows && repo.rows[k] == o;
      var i :| 0 <= i < |repo.scan| && repo.scan[i] == k;
      assert t[i] == o;
    }
  }

  // ---------------------------------------------------------------------------
  // findOrdersForExport / findOrdersWithFilters
  // ---------------------------------------------------------------------------

  /** The unpaginated query: the stored orders that match `c`, newest first.
      Each returned order matches, and each order occurs as often as it is
      stored if it matches and not at all otherwise. */
  function FindOrdersForExport(repo: Repository, c: Criteria): (r: seq<Order>)
    requires Valid(repo)
    ensures SortedByDateDesc(r)
    ensures forall o :: multiset(r)[o] == (if Matches(c, o) then multiset(Table(repo))[o] else 0)
    ensures forall i :: 0 <= i < |r| ==> Matches(c, r[i])
  {
    var p := (o: Order) => Matches(c, o);
    SelectThenSort(Table(repo), p);
    SortByDateDesc(FilterBy(Table(repo), p))
  }

  /** Sorting the selected rows keeps exactly the selected rows. */
  lemma SelectThenSort(s: seq<Order>, p: Order -> bool)
    ensures var r := SortByDateDesc(FilterBy(s, p));
      && (forall o :: multiset(r)[o] == (if p(o) then multiset(s)[o] else 0))
      && (forall i :: 0 <= i < |r| ==> p(r[i]))
  {
    var selected := FilterBy(s, p);
    var r := SortByDateDesc(selected);
    assert forall i :: 0 <= i < |r| ==> r[i] in multiset(selected);
  }

  /** Completeness: every stored order that matches is returned exactly once. */
  lemma ExportReturnsEachMatchOnce(repo: Repository, c: Criteria, k: int)
    requires Valid(repo) && k in repo.rows && Matches(c, repo.rows[k])
    ensures multiset(FindOrdersForExport(repo, c))[repo.rows[k]] == 1
  {
    TableDistinct(repo);
    TableMembership(repo, repo.rows[k]);
    DistinctOccursOnce(Table(repo), repo.rows[k]);
  }

  /** Soundness: every returned order is a stored order (under its own id)
      that matches. */
  lemma ExportReturnsOnlyStoredMatches(repo: Repository, c: Criteria, o: Order)
    requires Valid(repo) && o in FindOrdersForExport(repo, c)
    ensures Matches(c, o)
    ensures o.id.Some? && o.id.value in repo.rows && repo.rows[o.id.value] == o
  {
    var r := FindOrdersForExport(repo, c);
    assert multiset(r)[o] > 0;
    assert o in Table(repo);
    TableMembership(repo, o);
    var k :| k in repo.rows && repo.rows[k] == o;
  }

  /** The export is empty exactly when no stored order matches. */
  lemma ExportEmptyIffNoMatch(repo: Repository, c: Criteria)
    requires Valid(repo)
    ensures |FindOrdersForExport(repo, c)| == 0 <==> forall k :: k in repo.rows ==> !Matches(c, repo.rows[k])
  {
    var r := FindOrdersForExport(repo, c);
    if |r| > 0 {
      ExportReturnsOnlyStoredMatches(repo, c, r[0]);
    }
    if exists k :: k in repo.rows && Matches(c, repo.rows[k]) {
      var k :| k in repo.rows && Matches(c, repo.rows[k]);
      ExportReturnsEachMatchOnce(repo, c, k);
    }
  }

  /** With every criterion `null` the export is the whole store, reordered. */
  lemma ExportWithoutCriteriaIsWholeStore(repo: Repository)
    requires Valid(repo)
    ensures multiset(FindOrdersForExport(repo, NoCriteria)) == multiset(Table(repo))
    ensures |FindOrdersForExport(repo, NoCriteria)| == |repo.rows|
  {
    var r := FindOrdersForExport(repo, NoCriteria);
    forall o ensures multiset(r)[o] == multiset(Table(repo))[o] {
      NoCriteriaMatchesAll(o);
    }
    assert multiset(r) == multiset(Table(repo));
    assert |r| == |multiset(r)| == |multiset(Table(repo))| == |Table(repo)|;
    TableLength(repo);
  }

  /** `PageRequest.of(page, size)`. */
  datatype Pageable = Pageable(page: nat, size: nat)

  /** `PageRequest.of` rejects a negative page index and a size below one. */
  function PageRequestOf(page: int, size: int): (r: Result<Pageable, string>)
    ensures r.Success? <==> page >= 0 && size >= 1
    ensures r.Success? ==> r.value.page == page && r.value.size == size
  {
    if page < 0 then Failure("Page index must not be less than zero")
    else if size < 1 then Failure("Page size must not be less than one")
    else Success(Pageable(page, size))
  }

  /** One page of a result plus the totals a `Page<Order>` carries. */
  datatype Page = Page(content: seq<Order>, totalElements: nat, totalPages: nat, number: nat, size: nat)

  function Min(a: int, b: int): int {
    if a <= b then a else b
  }

  /** `part` is the run of `whole` that starts at position `offset`. */
  predicate IsSliceAt(part: seq<Order>, whole: seq<Order>, offset: nat) {
    forall i :: 0 <= i < |part| ==> offset + i < |whole| && part[i] == whole[offset + i]
  }

  /** Slices page `p.page` (of `p.size` rows) out of `all`. A page past the
      end is empty; `totalPages` is the number of pages needed to hold all rows. */
  function PageOf(all: seq<Order>, p: Pageable): (r: Page)
    requires p.size >= 1
    ensures r.number == p.page && r.size == p.size && r.totalElements == |all|
    ensures r.totalPages == PageCount(|all|, p.size)
    ensures |r.content| == PageLength(|all|, p.page, p.size)
    ensures IsSliceAt(r.content, all, p.page * p.size)
  {
    Page(Window(all, p.page * p.size, p.size), |all|, PageCount(|all|, p.size), p.page, p.size)
  }

  /** How many rows page `p.page` holds out of `n`: none past the end, a
      full page before the last one, the remainder on the last one. */
  function PageLength(n: int, page: int, size: int): int {
    if page * size >= n then 0 else Min(size, n - page * size)
  }

  /** The (at most) `size` rows of `all` starting at `offset`. */
  function Window(all: seq<Order>, offset: nat, size: nat): seq<Order> {
    all[Min(offset, |all|)..Min(offset + size, |all|)]
  }

  /** The fewest pages of `size` rows that hold `n` rows (`ceil(n / size)`). */
  function PageCount(n: nat, size: nat): nat
    requires size >= 1
  {
    (n + size - 1) / size
  }

  /** `PageCount` pages hold all rows, and one page fewer would not. */
  lemma PageCountBounds(n: nat, size: nat)
    requires size >= 1
    ensures n <= PageCount(n, size) * size
    ensures PageCount(n, size) == 0 || (PageCount(n, size) - 1) * size < n
  {
    var q := PageCount(n, size);
    assert q * size <= n + size - 1 < q * size + size;
  }

  /** The paginated query: one page of exactly the list the export query
      returns for the same criteria. */
  function FindOrdersWithFilters(repo: Repository, c: Criteria, p: Pageable): (r: Page)
    requires Valid(repo) && p.size >= 1
    ensures r.number == p.page && r.size == p.size
    ensures r.totalElements == |FindOrdersForExport(repo, c)|
    ensures r.totalPages == PageCount(|FindOrdersForExport(repo, c)|, p.size)
    ensures |r.content| == PageLength(|FindOrdersForExport(repo, c)|, p.page, p.size)
    ensures IsSliceAt(r.content, FindOrdersForExport(repo, c), p.page * p.size)
  {
    PageOf(FindOrdersForExport(repo, c), p)
  }

  /** The contents of pages `0 .. k-1`, one after the other (page `j` is
      `PageOf(all, Pageable(j, size)).content`). */
  function PagesUpTo(all: seq<Order>, size: nat, k: nat): seq<Order>
    requires size >= 1
  {
    if k == 0 then [] else PagesUpTo(all, size, k - 1) + Window(all, (k - 1) * size, size)
  }

  lemma {:induction false} PagesUpToIsPrefix(all: seq<Order>, size: nat, k: nat)
    requires size >= 1
    ensures PagesUpTo(all, size, k) == all[..Min(k * size, |all|)]
  {
    if k > 0 {
      PagesUpToIsPrefix(all, size, k - 1);
      var m := (k - 1) * size;
      assert k * size == m + size;
      var lo, hi := Min(m, |all|), Min(m + size, |all|);
      assert all[..lo] + all[lo..hi] == all[..hi];
    }
  }

  /** Walking the pages from 0 to `totalPages - 1` yields the whole list in
      order: the pages tile it without gaps or overlaps. */
  lemma PagesTileTheList(all: seq<Order>, size: nat)
    requires size >= 1
    ensures PagesUpTo(all, size, PageOf(all, Pageable(0, size)).totalPages) == all
  {
    var n := PageOf(all, Pageable(0, size)).totalPages;
    PageCountBounds(|all|, size);
    PagesUpToIsPrefix(all, size, n);
  }

  // ---------------------------------------------------------------------------
  // findByOrderDateBetween
  // ---------------------------------------------------------------------------

  /** `o.orderDate BETWEEN :startDate AND :endDate`; a `null` bound makes the
      comparison unknown, so nothing is selected. */
  function InDateRange(startDate: Option<Timestamp>, endDate: Option<Timestamp>): Order -> bool {
    (o: Order) => startDate.Some? && endDate.Some? && startDate.value <= o.orderDate <= endDate.value
  }

  function FindByOrderDateBetween(repo: Repository, startDate: Option<Timestamp>, endDate: Option<Timestamp>, p: Pageable): (r: Page)
    requires Valid(repo) && p.size >= 1
    ensures startDate.None? || endDate.None? ==> r.totalElements == 0 && r.content == []
  {
    var selected := FilterBy(Table(repo), InDateRange(startDate, endDate));
    MissingBoundSelectsNothing(Table(repo), startDate, endDate);
    PageOf(SortByDateDesc(selected), p)
  }

  /** A missing bound selects no row at all. */
  lemma {:induction false} MissingBoundSelectsNothing(s: seq<Order>, startDate: Option<Timestamp>, endDate: Option<Timestamp>)
    ensures startDate.None? || endDate.None? ==> FilterBy(s, InDateRange(startDate, endDate)) == []
  {
    if |s| > 0 {
      MissingBoundSelectsNothing(s[1..], startDate, endDate);
    }
  }

  /** With both bounds given, the range query is the five-criteria query with
      only the two date criteria set. */
  lemma DateRangeIsDateCriteria(repo: Repository, startDate: Timestamp, endDate: Timestamp, p: Pageable)
    requires Valid(repo) && p.size >= 1
    ensures FindByOrderDateBetween(repo, Some(startDate), Some(endDate), p)
         == FindOrdersWithFilters(repo, Criteria(None, None, None, Some(startDate), Some(endDate)), p)
  {
    var c := Criteria(None, None, None, Some(startDate), Some(endDate));
    FilterByCongruent(Table(repo), InDateRange(Some(startDate), Some(endDate)), (o: Order) => Matches(c, o));
  }

  // ---------------------------------------------------------------------------
  // countByStatus, findById, findByOrderNumber
  // ---------------------------------------------------------------------------

  /** `countByStatus(status)`, counted over the table. */
  function CountByStatus(repo: Repository, st: Status): (n: nat)
    requires Valid(repo)
    ensures n == |set k | k in repo.rows && repo.rows[k].status == st|
  {
    CountOverKeys(repo.rows, repo.scan, st);
    ScannedIdsWithStatus(repo, st);
    CountStatus(Table(repo), st)
  }

  /** The stored ids whose order is in state `st`. */
  ghost function IdsWithStatus(rows: map<int, Order>, keys: seq<int>, st: Status): set<int> {
    set k | k in keys && k in rows && rows[k].status == st
  }

  lemma IdsWithStatusCons(rows: map<int, Order>, keys: seq<int>, st: Status)
    requires Distinct(keys) && |keys| > 0 && keys[0] in rows
    ensures keys[0] !in IdsWithStatus(rows, keys[1..], st)
    ensures IdsWithStatus(rows, keys, st)
         == (if rows[keys[0]].status == st then {keys[0]} else {}) + IdsWithStatus(rows, keys[1..], st)
  {
    assert keys == [keys[0]] + keys[1..];
    assert keys[0] !in keys[1..];
  }

  lemma {:induction false} CountOverKeys(rows: map<int, Order>, keys: seq<int>, st: Status)
    requires Distinct(keys) && forall i :: 0 <= i < |keys| ==> keys[i] in rows
    ensures CountStatus(RowsOf(rows, keys), st) == |IdsWithStatus(rows, keys, st)|
  {
    if |keys| == 0 {
      assert IdsWithStatus(rows, keys, st) == {};
    } else {
      CountOverKeys(rows, keys[1..], st);
      assert RowsOf(rows, keys) == [rows[keys[0]]] + RowsOf(rows, keys[1..]);
      CountStatusAppend([rows[keys[0]]], RowsOf(rows, keys[1..]), st);
      IdsWithStatusCons(rows, keys, st);
    }
  }

  /** Over the scan order, the ids in a state are the stored ids in it. */
  lemma ScannedIdsWithStatus(repo: Repository, st: Status)
    requires Valid(repo)
    ensures IdsWithStatus(repo.rows, repo.scan, st) == set k | k in repo.rows && repo.rows[k].status == st
  {
    ScanIsKeys(repo);
    var ids := IdsWithStatus(repo.rows, repo.scan, st);
    var stored := set k | k in repo.rows && repo.rows[k].status == st;
    forall k | k in stored ensures k in ids {
      assert k in repo.scan;
    }
    assert ids <= stored;
  }

  /** `findById(id)`. */
  function FindById(repo: Repository, id: int): (r: Option<Order>)
    ensures r.Some? <==> id in repo.rows
    ensures r.Some? ==> r.value == repo.rows[id]
  {
    if id in repo.rows then Some(repo.rows[id]) else None
  }

  /** The selector of `findByOrderNumber`. */
  function HasNumber(orderNumber: string): Order -> bool {
    (o: Order) => o.orderNumber == orderNumber
  }

  /** The stored ids whose order carries `orderNumber`. */
  ghost function IdsWithNumber(repo: Repository, orderNumber: string): set<int> {
    set k | k in repo.rows && HasNumber(orderNumber)(repo.rows[k])
  }

  /** The ids among `keys` whose stored order satisfies `p`. */
  ghost function KeysWhere(rows: map<int, Order>, keys: seq<int>, p: Order -> bool): set<int> {
    set k | k in keys && k in rows && p(rows[k])
  }

  /** Peeling the first key off a duplicate-free key list. */
  lemma KeysWhereCons(rows: map<int, Order>, keys: seq<int>, p: Order -> bool)
    requires Distinct(keys) && |keys| > 0 && keys[0] in rows
    ensures keys[0] !in KeysWhere(rows, keys[1..], p)
    ensures KeysWhere(rows, keys, p)
         == (if p(rows[keys[0]]) then {keys[0]} else {}) + KeysWhere(rows, keys[1..], p)
  {
    assert keys == [keys[0]] + keys[1..];
    assert keys[0] !in keys[1..];
  }

  /** One filtering step over the rows of a key list. */
  lemma FilterRowsCons(rows: map<int, Order>, keys: seq<int>, p: Order -> bool)
    requires |keys| > 0 && forall i :: 0 <= i < |keys| ==> keys[i] in rows
    ensures |FilterBy(RowsOf(rows, keys), p)|
         == (if p(rows[keys[0]]) then 1 else 0) + |FilterBy(RowsOf(rows, keys[1..]), p)|
  {
    var t := RowsOf(rows, keys);
    assert t[1..] == RowsOf(rows, keys[1..]);
  }

  /** Filtering the rows of distinct keys selects one row per key whose
      order satisfies the predicate. */
  lemma {:induction false} FilterOverKeys(rows: map<int, Order>, keys: seq<int>, p: Order -> bool)
    requires Distinct(keys) && forall i :: 0 <= i < |keys| ==> keys[i] in rows
    ensures |FilterBy(RowsOf(rows, keys), p)| == |KeysWhere(rows, keys, p)|
  {
    if |keys| == 0 {
      assert KeysWhere(rows, keys, p) == {};
    } else {
      FilterOverKeys(rows, keys[1..], p);
      FilterRowsCons(rows, keys, p);
      KeysWhereCons(rows, keys, p);
    }
  }

  /** A filter over the table selects exactly as many rows as there are
      stored ids whose order satisfies it. */
  lemma HitsAreStoredIds(repo: Repository, p: Order -> bool)
    requires Valid(repo)
    ensures |FilterBy(Table(repo), p)| == |set k | k in repo.rows && p(repo.rows[k])|
  {
    FilterOverKeys(repo.rows, repo.scan, p);
    ScannedKeysWhere(repo, p);
  }

  /** Over the scan order, the selected ids are the stored ids selected. */
  lemma ScannedKeysWhere(repo: Repository, p: Order -> bool)
    requires Valid(repo)
    ensures KeysWhere(repo.rows, repo.scan, p) == set k | k in repo.rows && p(repo.rows[k])
  {
    ScanIsKeys(repo);
    var ks := KeysWhere(repo.rows, repo.scan, p);
    var ids := set k | k in repo.rows && p(repo.rows[k]);
    forall k | k in ids ensures k in ks {
      assert k in repo.scan;
    }
    assert ks <= ids;
  }


  /** The rows carrying a number are as many as the stored ids carrying it. */
  lemma NumberHitsAreStoredIds(repo: Repository, orderNumber: string)
    requires Valid(repo)
    ensures |FilterBy(Table(repo), HasNumber(orderNumber))| == |IdsWithNumber(repo, orderNumber)|
  {
    HitsAreStoredIds(repo, HasNumber(orderNumber));
  }

  /** `findByOrderNumber(number)`: an `Optional` for zero or one match; more
      than one stored match makes Spring Data fail the call. */
  function FindByOrderNumber(repo: Repository, orderNumber: string): (r: Result<Option<Order>, string>)
    requires Valid(repo)
    ensures r.Success? <==> |IdsWithNumber(repo, orderNumber)| <= 1
    ensures r.Success? && r.value.Some? <==> |IdsWithNumber(repo, orderNumber)| == 1
    ensures r.Success? && r.value.Some? ==>
      r.value.value in Table(repo) && r.value.value.orderNumber == orderNumber
    ensures r.Success? && r.value.None? ==>
      forall i :: 0 <= i < |Table(repo)| ==> Table(repo)[i].orderNumber != orderNumber
  {
    var hits := FilterBy(Table(repo), HasNumber(orderNumber));
    NumberHitsAreStoredIds(repo, orderNumber);
    if |hits| == 0 then
      assert forall o :: o in Table(repo) && o.orderNumber == orderNumber ==> multiset(hits)[o] > 0;
      Success(None)
    else if |hits| == 1 then
      assert multiset(hits)[hits[0]] > 0;
      Success(Some(hits[0]))
    else
      Failure("query did not return a unique result")
  }

  // ---------------------------------------------------------------------------
  // save (of a stored id) and deleteById
  // ---------------------------------------------------------------------------

  /** `ids` without `k`, in order. */
  function Without(ids: seq<int>, k: int): (r: seq<int>)
    ensures forall x :: x in r <==> x in ids && x != k
    ensures Distinct(ids) ==> Distinct(r)
  {
    if |ids| == 0 then []
    else
      var rest := Without(ids[1..], k);
      assert Distinct(ids) ==> ids[0] !in ids[1..];
      if ids[0] == k then rest else [ids[0]] + rest
  }

  /** `save(order)` for an order whose id is already stored: the row is
      replaced, the scan order is unchanged. */
  function Replace(repo: Repository, o: Order): (r: Repository)
    requires o.id.Some? && o.id.value in repo.rows
    ensures r.rows.Keys == repo.rows.Keys && r.rows[o.id.value] == o
    ensures forall k :: k in repo.rows && k != o.id.value ==> r.rows[k] == repo.rows[k]
    ensures Valid(repo) ==> Valid(r)
  {
    Repository(repo.rows[o.id.value := o], repo.scan)
  }

  /** `deleteById(id)`: removes the row if there is one. */
  function DeleteById(repo: Repository, id: int): (r: Repository)
    ensures r.rows == repo.rows - {id}
    ensures Valid(repo) ==> Valid(r)
  {
    var scan := Without(repo.scan, id);
    assert forall i :: 0 <= i < |scan| ==> scan[i] in scan;
    Repository(repo.rows - {id}, scan)
  }
}
