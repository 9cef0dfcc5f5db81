/**
 Keyset pagination of a block list (internal/corpus/service.go, memory_store.go, mysql_store.go):
 the two sort orders, the cursor, the predicates that say which rows come after it, and what a client
 sees that follows next_cursor over a fixed store.
 */
module Paging {
  import opened Wrappers
  import opened Text
  import opened Ordering
  import opened CorpusModel
  import opened Tables

  /** strings.Compare. */
  function CompareStrings(x: string, y: string): int {
    if x == y then 0 else if StrLess(x, y) then -1 else 1
  }

  function PinRank(pinned: bool): int { if pinned then 0 else 1 }

  function FavRank(favorite: bool): int { if favorite then 0 else 1 }

  /** The browse order: pinned, then favorite, then newest first, then greatest id first. */
  function CompareBlocks(x: PhraseBlock, y: PhraseBlock): int {
    var pin := PinRank(x.pinnedAt.Some?) - PinRank(y.pinnedAt.Some?);
    var fav := FavRank(x.favorite) - FavRank(y.favorite);
    if pin != 0 then pin
    else if fav != 0 then fav
    else if x.updatedAt > y.updatedAt then -1
    else if x.updatedAt < y.updatedAt then 1
    else if StrLess(y.id, x.id) then -1
    else if StrLess(x.id, y.id) then 1
    else CompareStrings(x.expression, y.expression)
  }

  /** The incremental order: oldest change first, then least id. */
  function CompareBlocksByUpdated(x: PhraseBlock, y: PhraseBlock): int {
    if x.updatedAt < y.updatedAt then -1
    else if x.updatedAt > y.updatedAt then 1
    else if StrLess(x.id, y.id) then -1
    else if StrLess(y.id, x.id) then 1
    else 0
  }

  datatype Cursor = Cursor(
    delta: bool,
    pinnedAt: Option<int>,
    createdAt: int,
    updatedAt: int,
    isPinned: bool,
    isFavorite: bool,
    id: string)

  /** Which list is followed: incremental sync, or browsing in the database or the memory store. */
  datatype Mode = Delta | BrowseSql | BrowseMemory

  predicate Before(mode: Mode, x: PhraseBlock, y: PhraseBlock) {
    if mode == Delta then CompareBlocksByUpdated(x, y) < 0 else CompareBlocks(x, y) < 0
  }

  function Order(mode: Mode): (PhraseBlock, PhraseBlock) -> bool { (x, y) => Before(mode, x, y) }

  /** next_cursor: the sort key of the last row of a full page. */
  function CursorOf(mode: Mode, last: PhraseBlock): Cursor {
    if mode == Delta then Cursor(true, None, 0, last.updatedAt, false, false, last.id)
    else Cursor(false, last.pinnedAt, last.createdAt, last.updatedAt, last.pinnedAt.Some?, last.favorite, last.id)
  }

  predicate AfterDeltaCursor(b: PhraseBlock, cursor: Cursor) {
    b.updatedAt > cursor.updatedAt || (b.updatedAt == cursor.updatedAt && StrLess(cursor.id, b.id))
  }

  /** The four disjuncts of the SQL browse predicate. */
  predicate AfterSqlCursor(b: PhraseBlock, cursor: Cursor) {
    var pin, fav := PinRank(cursor.isPinned), FavRank(cursor.isFavorite);
    var bPin, bFav := PinRank(b.pinnedAt.Some?), FavRank(b.favorite);
    || bPin > pin
    || (bPin == pin && bFav > fav)
    || (bPin == pin && bFav == fav && b.updatedAt < cursor.updatedAt)
    || (bPin == pin && bFav == fav && b.updatedAt == cursor.updatedAt && StrLess(b.id, cursor.id))
  }

  /** The memory store compares with a block rebuilt from the cursor, whose expression is empty. */
  predicate AfterMemoryCursor(b: PhraseBlock, cursor: Cursor) {
    var pinnedAt := if !cursor.isPinned then None else if cursor.pinnedAt.None? then Some(0) else cursor.pinnedAt;
    var row := b.(id := cursor.id, favorite := cursor.isFavorite, updatedAt := cursor.updatedAt, pinnedAt := pinnedAt,
                  expression := "");
    CompareBlocks(row, b) < 0
  }

  predicate After(mode: Mode, b: PhraseBlock, cursor: Cursor) {
    match mode
    case Delta => AfterDeltaCursor(b, cursor)
    case BrowseSql => AfterSqlCursor(b, cursor)
    case BrowseMemory => AfterMemoryCursor(b, cursor)
  }

  /** The keyset predicate of a request; the first page has none. */
  function AfterFilter(mode: Mode, after: Option<Cursor>): PhraseBlock -> bool {
    b => after.None? || After(mode, b, after.value)
  }

  datatype Page = Page(items: seq<PhraseBlock>, next: Option<Cursor>)

  /** The rows a store returns for one request over the rows that match its filters. */
  function Select(mode: Mode, rows: seq<PhraseBlock>, after: Option<Cursor>, limit: nat): seq<PhraseBlock> {
    Take(Sort(Order(mode), Keep(AfterFilter(mode, after), rows)), limit)
  }

  /** A store of these rows, as the service sees it: a cursor is answered with rows. */
  function Requests(mode: Mode, rows: seq<PhraseBlock>, limit: nat): Option<Cursor> -> seq<PhraseBlock> {
    after => Select(mode, rows, after, limit)
  }

  /** One ListBlocks answer: a full page carries a cursor. */
  function PageOf(mode: Mode, items: seq<PhraseBlock>, limit: nat): Page
    requires limit > 0
  {
    Page(items, if |items| == limit then Some(CursorOf(mode, items[limit - 1])) else None)
  }

  /** The k-th page of a client that follows next_cursor, if there is one. */
  function PageNo(mode: Mode, request: Option<Cursor> -> seq<PhraseBlock>, limit: nat, k: nat): Option<Page>
    requires limit > 0
  {
    if k == 0 then Some(PageOf(mode, request(None), limit))
    else
      match PageNo(mode, request, limit, k - 1)
      case None => None
      case Some(page) => if page.next.None? then None else Some(PageOf(mode, request(page.next), limit))
  }

  /** Both sort orders are strict and total on rows with distinct ids. */
  lemma OrderLists(mode: Mode)
    ensures ListingOrder(Order(mode))
  {
    StrLessOrder();
    var less := Order(mode);
    forall x, y, z | less(x, y) && less(y, z) ensures less(x, z) {}
    forall x, y, z | less(x, z) ensures less(x, y) || less(y, z) {}
    forall x: PhraseBlock, y: PhraseBlock | x.id != y.id ensures less(x, y) || less(y, x) { StrLessTotal(x.id, y.id); }
  }

  /** The SQL predicate's disjuncts and the incremental predicate mean "strictly later in the sort order". */
  lemma AfterMeansStrictlyLater(mode: Mode, last: PhraseBlock, b: PhraseBlock)
    requires mode != BrowseMemory && last.id != b.id
    ensures After(mode, b, CursorOf(mode, last)) <==> Before(mode, last, b)
  {
    StrLessTotal(last.id, b.id);
  }

  lemma AfterExcludesItself(mode: Mode, last: PhraseBlock)
    requires mode != BrowseMemory
    ensures !After(mode, last, CursorOf(mode, last))
  {
    StrLessTotal(last.id, last.id);
  }

  /** The memory predicate means "strictly later, or the cursor row itself unless its expression is empty". */
  lemma AfterInMemory(last: PhraseBlock, b: PhraseBlock)
    requires last.id == b.id ==> last == b
    ensures After(BrowseMemory, b, CursorOf(BrowseMemory, last)) <==>
              Before(BrowseMemory, last, b) || (b == last && last.expression != "")
  {
    StrLessTotal(last.id, b.id);
  }

  /** Rows cut from a listing at position k are exactly what the kept rows sort to. */
  lemma SuffixIsTheKeptListing(mode: Mode, rows: seq<PhraseBlock>, p: PhraseBlock -> bool, k: nat)
    requires OneRowPerId(rows)
    requires k <= |Sort(Order(mode), rows)|
    requires forall i | 0 <= i < |Sort(Order(mode), rows)| :: p(Sort(Order(mode), rows)[i]) <==> i >= k
    ensures Sort(Order(mode), Keep(p, rows)) == Sort(Order(mode), rows)[k..]
  {
    var all, kept := Sort(Order(mode), rows), Sort(Order(mode), Keep(p, rows));
    OrderLists(mode);
    ListingIsStrict(Order(mode), rows);
    KeepIsAFilter(p, rows);
    KeepKeepsIdsApart(p, rows);
    ListingIsStrict(Order(mode), Keep(p, rows));
    SuffixHolds(all, p, k);
    StrictlySortedUnique(Order(mode), all[k..], kept);
  }

  lemma SuffixHolds(all: seq<PhraseBlock>, p: PhraseBlock -> bool, k: nat)
    requires k <= |all| && forall i | 0 <= i < |all| :: p(all[i]) <==> i >= k
    ensures forall b :: b in all[k..] <==> b in all && p(b)
  {
    forall b | b in all && p(b) ensures b in all[k..] {
      var i :| 0 <= i < |all| && all[i] == b;
      assert all[k..][i - k] == b;
    }
  }

  lemma FirstPage(mode: Mode, rows: seq<PhraseBlock>, limit: nat)
    ensures Select(mode, rows, None, limit) == Take(Sort(Order(mode), rows), limit)
  {
    KeepAll(AfterFilter(mode, None), rows);
  }

  /** In the sorted listing, "before" is "at a smaller index", and ids do not repeat. */
  lemma ListingPositions(mode: Mode, rows: seq<PhraseBlock>, k: nat, i: nat)
    requires OneRowPerId(rows)
    requires k < |Sort(Order(mode), rows)| && i < |Sort(Order(mode), rows)|
    ensures var all := Sort(Order(mode), rows);
            && (Before(mode, all[k], all[i]) <==> k < i)
            && (all[k].id == all[i].id <==> k == i)
  {
    var all := Sort(Order(mode), rows);
    OrderLists(mode);
    ListingIsStrict(Order(mode), rows);
    assert k < i ==> Order(mode)(all[k], all[i]);
    assert i < k ==> Order(mode)(all[i], all[k]);
    assert !Order(mode)(all[k], all[k]) && !(Order(mode)(all[i], all[k]) && Order(mode)(all[k], all[i]));
    if all[k].id == all[i].id {
      SameIdSameRow(rows, all[k], all[i]);
      assert !Order(mode)(all[k], all[i]) && !Order(mode)(all[i], all[k]);
    }
  }

  /** Following the cursor of the row at position k yields the rows after it, and only those. */
  lemma NextRows(mode: Mode, rows: seq<PhraseBlock>, k: nat, limit: nat)
    requires mode != BrowseMemory && OneRowPerId(rows)
    requires k < |Sort(Order(mode), rows)|
    ensures var all := Sort(Order(mode), rows);
            Select(mode, rows, Some(CursorOf(mode, all[k])), limit) == Take(all[k + 1..], limit)
  {
    var all := Sort(Order(mode), rows);
    var p := AfterFilter(mode, Some(CursorOf(mode, all[k])));
    forall i | 0 <= i < |all| ensures p(all[i]) <==> i >= k + 1 {
      ListingPositions(mode, rows, k, i);
      if i == k { AfterExcludesItself(mode, all[k]); } else { AfterMeansStrictlyLater(mode, all[k], all[i]); }
    }
    SuffixIsTheKeptListing(mode, rows, p, k + 1);
  }

  /** In the memory store the row that made the cursor comes back first, unless its expression is empty. */
  lemma NextRowsInMemory(rows: seq<PhraseBlock>, k: nat, limit: nat)
    requires OneRowPerId(rows)
    requires k < |Sort(Order(BrowseMemory), rows)|
    ensures var all := Sort(Order(BrowseMemory), rows);
            Select(BrowseMemory, rows, Some(CursorOf(BrowseMemory, all[k])), limit)
              == Take(if all[k].expression == "" then all[k + 1..] else all[k..], limit)
  {
    var all := Sort(Order(BrowseMemory), rows);
    var p := AfterFilter(BrowseMemory, Some(CursorOf(BrowseMemory, all[k])));
    var from := if all[k].expression == "" then k + 1 else k;
    forall i | 0 <= i < |all| ensures p(all[i]) <==> i >= from {
      ListingPositions(BrowseMemory, rows, k, i);
      AfterInMemory(all[k], all[i]);
    }
    SuffixIsTheKeptListing(BrowseMemory, rows, p, from);
  }

  /**
   The memory store's follow-up page is the rows strictly after the cursor row exactly when that row's
   expression is empty, which no accepted block's is.
   */
  lemma MemoryCursorIsExactIffExpressionEmpty(rows: seq<PhraseBlock>, k: nat, limit: nat)
    requires OneRowPerId(rows) && limit > 0
    requires k < |Sort(Order(BrowseMemory), rows)|
    ensures var all := Sort(Order(BrowseMemory), rows);
            Select(BrowseMemory, rows, Some(CursorOf(BrowseMemory, all[k])), limit) == Take(all[k + 1..], limit) <==>
                all[k].expression == ""
  {
    var all := Sort(Order(BrowseMemory), rows);
    NextRowsInMemory(rows, k, limit);
    if all[k].expression != "" {
      assert Take(all[k..], limit)[0] == all[k];
      if k + 1 < |all| {
        ListingPositions(BrowseMemory, rows, k, k + 1);
        assert Take(all[k + 1..], limit)[0] == all[k + 1];
      }
    }
  }

  /**
   The row at position k of the list, sent back as a cursor, is answered with the rows after it, or, from a
   source that goes back, with the rows from `back` places before.
   */
  ghost predicate Resumes(mode: Mode, request: Option<Cursor> -> seq<PhraseBlock>, limit: nat, all: seq<PhraseBlock>,
                          back: nat, k: nat)
    requires k < |all| && back <= 1
  {
    request(Some(CursorOf(mode, all[k]))) == Take(all[k + 1 - back..], limit)
  }

  /** Requests page through the list: from its start, and from every row of it. */
  ghost predicate Keyset(mode: Mode, request: Option<Cursor> -> seq<PhraseBlock>, limit: nat, all: seq<PhraseBlock>,
                         back: nat) {
    && back <= 1
    && request(None) == Take(all, limit)
    && (forall k: nat | k < |all| :: Resumes(mode, request, limit, all, back, k))
  }

  lemma StoreIsKeyset(mode: Mode, rows: seq<PhraseBlock>, limit: nat)
    requires mode != BrowseMemory && OneRowPerId(rows)
    ensures Keyset(mode, Requests(mode, rows, limit), limit, Sort(Order(mode), rows), 0)
  {
    var all := Sort(Order(mode), rows);
    FirstPage(mode, rows, limit);
    forall k: nat | k < |all| ensures Resumes(mode, Requests(mode, rows, limit), limit, all, 0, k) {
      NextRows(mode, rows, k, limit);
    }
  }

  /** Accepted blocks have an expression. */
  predicate Worded(rows: seq<PhraseBlock>) { forall i | 0 <= i < |rows| :: rows[i].expression != "" }

  lemma MemoryStoreGoesBack(rows: seq<PhraseBlock>, limit: nat)
    requires OneRowPerId(rows) && Worded(rows)
    ensures Keyset(BrowseMemory, Requests(BrowseMemory, rows, limit), limit, Sort(Order(BrowseMemory), rows), 1)
  {
    var all := Sort(Order(BrowseMemory), rows);
    FirstPage(BrowseMemory, rows, limit);
    forall k: nat | k < |all| ensures Resumes(BrowseMemory, Requests(BrowseMemory, rows, limit), limit, all, 1, k) {
      SortedIsWorded(rows, k);
      NextRowsInMemory(rows, k, limit);
    }
  }

  lemma SortedIsWorded(rows: seq<PhraseBlock>, k: nat)
    requires Worded(rows) && k < |Sort(Order(BrowseMemory), rows)|
    ensures Sort(Order(BrowseMemory), rows)[k].expression != ""
  {
    var all := Sort(Order(BrowseMemory), rows);
    assert all[k] in multiset(all);
    assert all[k] in rows;
  }

  /** The slice of the list that a page should be, and whether a further page is announced. */
  predicate IsSlice(page: Page, all: seq<PhraseBlock>, from: nat, limit: nat, mode: Mode)
    requires from <= |all| && limit > 0
  {
    && page.items == Take(all[from..], limit)
    && page.next == if from + limit <= |all| then Some(CursorOf(mode, all[from + limit - 1])) else None
  }

  /** Where page k starts: k times the limit. */
  function Offset(limit: nat, k: nat): nat {
    if k == 0 then 0 else Offset(limit, k - 1) + limit
  }

  lemma {:induction false} OffsetIsAProduct(limit: nat, k: nat)
    ensures Offset(limit, k) == k * limit
  {
    if k > 0 {
      OffsetIsAProduct(limit, k - 1);
      assert k * limit == (k - 1) * limit + limit;
    }
  }

  lemma LastOffset(n: nat, limit: nat)
    requires limit > 0
    ensures Offset(limit, n / limit) <= n < Offset(limit, n / limit) + limit
  {
    OffsetIsAProduct(limit, n / limit);
  }

  /**
   Following next_cursor: page k is the slice of the full list that starts k steps of limit - back places
   down, it announces a successor exactly when it is full, and there is no page without one before it that is.
   */
  lemma {:induction false} PagesAreSlices(mode: Mode, request: Option<Cursor> -> seq<PhraseBlock>, limit: nat,
                                          all: seq<PhraseBlock>,
                                          back: nat, k: nat)
    requires limit > 0 && Keyset(mode, request, limit, all, back)
    ensures PageNo(mode, request, limit, k).Some? <==> k == 0 || Offset(limit - back, k) + back <= |all|
    ensures PageNo(mode, request, limit, k).Some? ==>
              && Offset(limit - back, k) <= |all|
              && IsSlice(PageNo(mode, request, limit, k).value, all, Offset(limit - back, k), limit, mode)
  {
    if k == 0 {
      assert all[0..] == all;
    } else {
      PagesAreSlices(mode, request, limit, all, back, k - 1);
      if PageNo(mode, request, limit, k - 1).Some? {
        NextSlice(mode, request, limit, all, back, PageNo(mode, request, limit, k - 1).value,
                  Offset(limit - back, k - 1));
      }
    }
  }

  /** From one slice to the next. */
  lemma NextSlice(mode: Mode, request: Option<Cursor> -> seq<PhraseBlock>, limit: nat, all: seq<PhraseBlock>, back: nat,
                  page: Page, from: nat)
    requires limit > 0 && Keyset(mode, request, limit, all, back) && from <= |all|
             && IsSlice(page, all, from, limit, mode)
    ensures page.next.Some? <==> from + limit <= |all|
    ensures page.next.Some? ==> IsSlice(PageOf(mode, request(page.next), limit), all, from + limit - back, limit, mode)
  {
    if from + limit <= |all| {
      assert Resumes(mode, request, limit, all, back, from + limit - 1);
    }
  }

  function ItemsOf(page: Option<Page>): seq<PhraseBlock> {
    match page case Some(p) => p.items case None => []
  }

  /** The rows a client receives from the first page to the k-th. */
  function Visited(mode: Mode, request: Option<Cursor> -> seq<PhraseBlock>, limit: nat, k: nat): seq<PhraseBlock>
    requires limit > 0
  {
    (if k == 0 then [] else Visited(mode, request, limit, k - 1)) + ItemsOf(PageNo(mode, request, limit, k))
  }

  lemma TakeMore(all: seq<PhraseBlock>, from: nat, limit: nat)
    ensures Take(all, from + limit) == Take(all, from) + if from <= |all| then Take(all[from..], limit) else []
  {
  }

  lemma {:induction false} PagesAddUp(mode: Mode, request: Option<Cursor> -> seq<PhraseBlock>, limit: nat,
                                      all: seq<PhraseBlock>, k: nat)
    requires limit > 0 && Keyset(mode, request, limit, all, 0)
    ensures Visited(mode, request, limit, k) == Take(all, Offset(limit, k) + limit)
  {
    ItemsAreSlices(mode, request, limit, all, k);
    TakeMore(all, Offset(limit, k), limit);
    if k > 0 { PagesAddUp(mode, request, limit, all, k - 1); }
  }

  lemma ItemsAreSlices(mode: Mode, request: Option<Cursor> -> seq<PhraseBlock>, limit: nat, all: seq<PhraseBlock>,
                       k: nat)
    requires limit > 0 && Keyset(mode, request, limit, all, 0)
    ensures ItemsOf(PageNo(mode, request, limit, k)) == if Offset(limit, k) <= |all|
              then Take(all[Offset(limit, k)..], limit) else []
  {
    PagesAreSlices(mode, request, limit, all, 0, k);
  }

  /** The walk over a keyset source covers its list and then stops. */
  lemma WalkCoversTheList(mode: Mode, request: Option<Cursor> -> seq<PhraseBlock>, limit: nat, all: seq<PhraseBlock>)
    requires limit > 0 && Keyset(mode, request, limit, all, 0)
    ensures var last := |all| / limit;
            && Visited(mode, request, limit, last) == all
            && PageNo(mode, request, limit, last).Some?
            && PageNo(mode, request, limit, last).value.next == None
            && PageNo(mode, request, limit, last + 1) == None
  {
    LastOffset(|all|, limit);
    WalkStopsAt(mode, request, limit, all, |all| / limit);
  }

  lemma WalkStopsAt(mode: Mode, request: Option<Cursor> -> seq<PhraseBlock>, limit: nat, all: seq<PhraseBlock>,
                    last: nat)
    requires limit > 0 && Keyset(mode, request, limit, all, 0)
    requires Offset(limit, last) <= |all| < Offset(limit, last) + limit
    ensures Visited(mode, request, limit, last) == all
    ensures PageNo(mode, request, limit, last).Some? && PageNo(mode, request, limit, last).value.next == None
    ensures PageNo(mode, request, limit, last + 1) == None
  {
    PagesAddUp(mode, request, limit, all, last);
    PagesAreSlices(mode, request, limit, all, 0, last);
  }

  /**
   Over a fixed store, incrementally or browsing under the SQL predicate, following next_cursor visits
   every matching row exactly once, in sort order, and then stops.
   */
  lemma FollowingCursorsVisitsEveryRowOnce(mode: Mode, rows: seq<PhraseBlock>, limit: nat)
    requires mode != BrowseMemory && OneRowPerId(rows) && limit > 0
    ensures var request, last := Requests(mode, rows, limit), |rows| / limit;
            && var visited := Visited(mode, request, limit, last);
            && multiset(visited) == multiset(rows)
            && StrictlySorted(Order(mode), visited)
            && PageNo(mode, request, limit, last).Some?
            && PageNo(mode, request, limit, last).value.next == None
            && PageNo(mode, request, limit, last + 1) == None
  {
    StoreIsKeyset(mode, rows, limit);
    WalkCoversTheList(mode, Requests(mode, rows, limit), limit, Sort(Order(mode), rows));
    SortedListing(mode, rows);
  }

  lemma SortedListing(mode: Mode, rows: seq<PhraseBlock>)
    requires OneRowPerId(rows)
    ensures StrictlySorted(Order(mode), Sort(Order(mode), rows))
  {
    OrderLists(mode);
    ListingIsStrict(Order(mode), rows);
  }

  /** Browsing the memory store one row at a time never gets past the first row. */
  lemma MemoryBrowsingByOneNeverEnds(rows: seq<PhraseBlock>, k: nat)
    requires OneRowPerId(rows) && Worded(rows) && rows != []
    ensures var first := Sort(Order(BrowseMemory), rows)[0];
            PageNo(BrowseMemory, Requests(BrowseMemory, rows, 1), 1, k) ==
                Some(Page([first], Some(CursorOf(BrowseMemory, first))))
  {
    MemoryStoreGoesBack(rows, 1);
    StuckOnTheFirst(Requests(BrowseMemory, rows, 1), Sort(Order(BrowseMemory), rows), k);
  }

  lemma StuckOnTheFirst(request: Option<Cursor> -> seq<PhraseBlock>, all: seq<PhraseBlock>, k: nat)
    requires Keyset(BrowseMemory, request, 1, all, 1) && all != []
    ensures PageNo(BrowseMemory, request, 1, k) == Some(Page([all[0]], Some(CursorOf(BrowseMemory, all[0]))))
  {
    PagesAreSlices(BrowseMemory, request, 1, all, 1, k);
    OffsetIsAProduct(0, k);
    assert Take(all[0..], 1) == [all[0]];
  }

  /** Page k shows this row. */
  predicate Shows(mode: Mode, request: Option<Cursor> -> seq<PhraseBlock>, limit: nat, k: nat, row: PhraseBlock)
    requires limit > 0
  {
    row in ItemsOf(PageNo(mode, request, limit, k))
  }

  lemma SliceShows(all: seq<PhraseBlock>, from: nat, limit: nat, i: nat)
    requires from <= |all| && i < |all| && Distinct(all)
    ensures all[i] in Take(all[from..], limit) <==> from <= i < from + limit
  {
    var slice := Take(all[from..], limit);
    if all[i] in slice {
      var m :| 0 <= m < |slice| && slice[m] == all[i];
      assert all[from + m] == all[i];
    }
    if from <= i < from + limit { assert slice[i - from] == all[i]; }
  }

  lemma Product(d: int, step: int)
    requires step > 0
    ensures d >= 2 ==> d * step >= 2 * step
    ensures d < 0 ==> d * step <= -step
  {
    assert d >= 2 ==> (d - 2) * step >= 0;
    assert d < 0 ==> (-1 - d) * step >= 0;
  }

  /** Place i is the r-th after q steps; the pages of step + 1 rows that start k steps down and hold it. */
  lemma PlacesOnPages(i: nat, step: nat, q: nat, r: nat, k: nat)
    requires step > 0 && i == q * step + r && r < step
    ensures k * step <= i <= k * step + step <==> k == q || (r == 0 && q > 0 && k == q - 1)
  {
    var d: int := q - k;
    assert i - k * step == d * step + r;
    Product(d, step);
  }

  /**
   Browsing the memory store two or more rows at a time shows every row: the row at place i of the list is
   on page i / (limit - 1), and a row at a page boundary, a positive multiple of limit - 1, on the page
   before as well.
   */
  lemma MemoryShowsBoundaryRowsTwice(rows: seq<PhraseBlock>, limit: nat, i: nat, k: nat,
                                     request: Option<Cursor> -> seq<PhraseBlock>, all: seq<PhraseBlock>)
    requires OneRowPerId(rows) && Worded(rows) && limit >= 2
    requires request == Requests(BrowseMemory, rows, limit) && all == Sort(Order(BrowseMemory), rows) && i < |all|
    ensures Shows(BrowseMemory, request, limit, k, all[i]) <==> OnPage(i, limit - 1, k)
  {
    MemoryStoreGoesBack(rows, limit);
    SortedListing(BrowseMemory, rows);
    OrderLists(BrowseMemory);
    StrictIsDistinct(Order(BrowseMemory), all);
    ShownWhere(request, limit, all, i, k);
  }

  lemma StrictIsDistinct(less: (PhraseBlock, PhraseBlock) -> bool, s: seq<PhraseBlock>)
    requires StrictlySorted(less, s) && ListingOrder(less)
    ensures Distinct(s)
  {
    assert forall i, j | 0 <= i < j < |s| :: less(s[i], s[j]) && !less(s[i], s[i]);
  }

  lemma ShownWhere(request: Option<Cursor> -> seq<PhraseBlock>, limit: nat, all: seq<PhraseBlock>, i: nat, k: nat)
    requires limit >= 2 && Keyset(BrowseMemory, request, limit, all, 1) && Distinct(all) && i < |all|
    ensures Shows(BrowseMemory, request, limit, k, all[i]) <==> OnPage(i, limit - 1, k)
  {
    PagesAreSlices(BrowseMemory, request, limit, all, 1, k);
    if PageNo(BrowseMemory, request, limit, k).Some? { SliceShows(all, Offset(limit - 1, k), limit, i); }
    OnPageIff(i, limit - 1, k);
  }

  lemma OnPageIff(i: nat, step: nat, k: nat)
    requires step > 0
    ensures OnPage(i, step, k) <==> Offset(step, k) <= i <= Offset(step, k) + step
    ensures OnPage(i, step, k) ==> k == 0 || Offset(step, k) + 1 <= i + 1
  {
    OffsetIsAProduct(step, k);
    PlacesOnPages(i, step, i / step, i % step, k);
  }

  /** Whether page k shows the row at place i of the list. */
  function ShownOn(request: Option<Cursor> -> seq<PhraseBlock>, limit: nat, all: seq<PhraseBlock>): (nat, nat) -> bool
    requires limit > 0
  {
    (i: nat, k: nat) => i < |all| && Shows(BrowseMemory, request, limit, k, all[i])
  }

  /** No place is on two pages. */
  ghost predicate Once(on: (nat, nat) -> bool, n: nat) {
    forall i: nat, k: nat, m: nat | i < n && on(i, k) && on(i, m) :: k == m
  }

  ghost predicate Somewhere(on: (nat, nat) -> bool, i: nat) { exists k: nat :: on(i, k) }

  lemma OnceIff(on: (nat, nat) -> bool, n: nat, step: nat)
    requires step > 0 && forall i: nat, k: nat | i < n :: on(i, k) <==> OnPage(i, step, k)
    ensures forall i: nat | i < n :: Somewhere(on, i)
    ensures Once(on, n) <==> n <= step
  {
    forall i: nat | i < n ensures Somewhere(on, i) {
      assert OnPage(i, step, i / step);
      assert on(i, i / step);
    }
    if n > step {
      OnTwoPages(step);
      assert on(step, 0) && on(step, 1);
    } else {
      forall i: nat, k: nat | i < n && on(i, k) ensures k == 0 {
        OnFirstPage(i, step, k);
      }
    }
  }

  lemma OnTwoPages(step: nat)
    requires step > 0
    ensures OnPage(step, step, 0) && OnPage(step, step, 1)
  {
  }

  lemma OnFirstPage(i: nat, step: nat, k: nat)
    requires i < step && OnPage(i, step, k)
    ensures k == 0
  {
    assert i / step == 0 && i % step == i;
  }

  lemma ShownOnceWhere(request: Option<Cursor> -> seq<PhraseBlock>, limit: nat, all: seq<PhraseBlock>,
                       on: (nat, nat) -> bool)
    requires limit >= 2 && Keyset(BrowseMemory, request, limit, all, 1) && Distinct(all)
    requires on == ShownOn(request, limit, all)
    ensures forall i: nat | i < |all| :: Somewhere(on, i)
    ensures Once(on, |all|) <==> |all| < limit
  {
    forall i: nat, k: nat | i < |all| ensures on(i, k) <==> OnPage(i, limit - 1, k) {
      ShownWhere(request, limit, all, i, k);
    }
    OnceIff(on, |all|, limit - 1);
  }

  /** That walk shows every row, and each exactly once if and only if they fit on the first page with room to spare. */
  lemma MemoryShowsEveryRowOnceIff(rows: seq<PhraseBlock>, limit: nat, request: Option<Cursor> -> seq<PhraseBlock>,
                                   all: seq<PhraseBlock>, on: (nat, nat) -> bool)
    requires OneRowPerId(rows) && Worded(rows) && limit >= 2
    requires request == Requests(BrowseMemory, rows, limit) && all == Sort(Order(BrowseMemory), rows)
    requires on == ShownOn(request, limit, all)
    ensures forall i: nat | i < |all| :: Somewhere(on, i)
    ensures Once(on, |all|) <==> |rows| < limit
  {
    MemoryStoreGoesBack(rows, limit);
    SortedListing(BrowseMemory, rows);
    OrderLists(BrowseMemory);
    StrictIsDistinct(Order(BrowseMemory), all);
    ShownOnceWhere(request, limit, all, on);
  }

  predicate OnPage(i: nat, step: nat, k: nat)
    requires step > 0
  {
    k == i / step || (i > 0 && i % step == 0 && k == i / step - 1)
  }

  /** How many pages the memory store hands out after the first. */
  function LastInMemory(n: nat, limit: nat): nat
    requires limit >= 2
  {
    if n < limit then 0 else (n - limit) / (limit - 1) + 1
  }

  /** Browsing the memory store two or more rows at a time stops. */
  lemma MemoryBrowsingStops(rows: seq<PhraseBlock>, limit: nat)
    requires OneRowPerId(rows) && Worded(rows) && limit >= 2
    ensures var request, last := Requests(BrowseMemory, rows, limit), LastInMemory(|rows|, limit);
            && PageNo(BrowseMemory, request, limit, last).Some?
            && PageNo(BrowseMemory, request, limit, last).value.next == None
            && PageNo(BrowseMemory, request, limit, last + 1) == None
  {
    MemoryStoreGoesBack(rows, limit);
    LastInMemoryIs(|rows|, limit, LastInMemory(|rows|, limit));
    PagesAreSlices(BrowseMemory, Requests(BrowseMemory, rows, limit), limit, Sort(Order(BrowseMemory), rows), 1,
                   LastInMemory(|rows|, limit));
  }

  lemma LastInMemoryIs(n: nat, limit: nat, last: nat)
    requires limit >= 2 && last == LastInMemory(n, limit)
    ensures last == 0 || Offset(limit - 1, last) + 1 <= n
    ensures n < Offset(limit - 1, last) + limit
  {
    OffsetIsAProduct(limit - 1, last);
    if n >= limit {
      var step, q := limit - 1, (n - limit) / (limit - 1);
      assert q * step <= n - limit < q * step + step;
      assert (q + 1) * step == q * step + step;
    }
  }

  /** Pinned blocks come first, then favorites, then the last changed, then the greatest id. */
  lemma BrowseOrderMeans(x: PhraseBlock, y: PhraseBlock)
    requires x.id != y.id
    ensures Before(BrowseMemory, x, y) <==> Before(BrowseSql, x, y)
    ensures Before(BrowseSql, x, y) <==>
              || (x.pinnedAt.Some? && y.pinnedAt.None?)
              || ((x.pinnedAt.Some? <==> y.pinnedAt.Some?)
                  && ((x.favorite && !y.favorite)
                      || (x.favorite == y.favorite
                          && (x.updatedAt > y.updatedAt || (x.updatedAt == y.updatedAt && StrLess(y.id, x.id))))))
  {
    StrLessTotal(x.id, y.id);
  }

  /** Incremental sync lists changes from the oldest on, by id among equals. */
  lemma DeltaOrderMeans(x: PhraseBlock, y: PhraseBlock)
    requires x.id != y.id
    ensures Before(Delta, x, y) <==> x.updatedAt < y.updatedAt || (x.updatedAt == y.updatedAt && StrLess(x.id, y.id))
  {
    StrLessTotal(x.id, y.id);
  }
}
