/** The data table's own logic: the three-state header sort, the search
    filter over the rows' field values, and the pagination footer. */
module DataTable {
  import opened SeqUtil
  import opened JsString

  datatype SortDir = Asc | Desc

  /** A column; `title` is the header text (`label` in the column record). */
  datatype Column = Column(key: string, title: string, sortable: bool)

  datatype Features = Features(showPagination: bool, allowSorting: bool, showSearch: bool, exportData: bool)

  /** The pagination record a table is given: the current page (from 1),
      the page size and the number of rows overall. */
  datatype Pagination = Pagination(page: int, pageSize: int, total: int)

  /** The `aria-sort` attribute of a header cell. */
  datatype AriaSort = Ascending | Descending | NoSort

  /** A call of the `onSort` callback with the clicked key and the new direction. */
  datatype SortCall = SortCall(key: string, dir: Option<SortDir>)

  /** A row, as the string forms of its field values in field order. */
  type Row = seq<string>

  // ---------------------------------------------------------------------
  // Sorting

  /** The sort key and direction after a click on `key`: a new key sorts
      ascending, the same key flips ascending to descending, and anything
      else clears the sort. */
  function NextSort(sortKey: Option<string>, sortDir: Option<SortDir>, key: string): (Option<string>, Option<SortDir>)
  {
    if sortKey != Some(key) then (Some(key), Some(Asc))
    else if sortDir == Some(Asc) then (sortKey, Some(Desc))
    else (None, None)
  }

  /** Key and direction are set and cleared together. */
  predicate SortConsistent(sortKey: Option<string>, sortDir: Option<SortDir>)
  {
    sortKey.None? <==> sortDir.None?
  }

  /** The cycle: unsorted or another key, then ascending, then descending,
      then unsorted again; each click keeps key and direction consistent. */
  lemma SortCycle(sortKey: Option<string>, sortDir: Option<SortDir>, key: string)
    requires SortConsistent(sortKey, sortDir)
    ensures sortKey != Some(key) ==> NextSort(sortKey, sortDir, key) == (Some(key), Some(Asc))
    ensures sortKey == Some(key) && sortDir == Some(Asc) ==> NextSort(sortKey, sortDir, key) == (Some(key), Some(Desc))
    ensures sortKey == Some(key) && sortDir == Some(Desc) ==> NextSort(sortKey, sortDir, key) == (None, None)
    ensures var (k, d) := NextSort(sortKey, sortDir, key); SortConsistent(k, d)
  {
  }

  /** Three clicks on one key from an unsorted table leave it unsorted. */
  lemma ThreeClicks(key: string)
    ensures var (k1, d1) := NextSort(None, None, key);
      var (k2, d2) := NextSort(k1, d1, key);
      var (k3, d3) := NextSort(k2, d2, key);
      k1 == Some(key) && d1 == Some(Asc) && d2 == Some(Desc) && k3 == None && d3 == None
  {
  }

  /** The `aria-sort` of the column with key `colKey`. */
  function AriaSortOf(sortKey: Option<string>, sortDir: Option<SortDir>, colKey: string): AriaSort
  {
    if sortKey == Some(colKey) then (if sortDir == Some(Asc) then Ascending else Descending)
    else NoSort
  }

  /** Only the sorted column announces a direction, and it is the current one. */
  lemma AriaSortSpec(sortKey: Option<string>, sortDir: Option<SortDir>, colKey: string)
    requires SortConsistent(sortKey, sortDir)
    ensures AriaSortOf(sortKey, sortDir, colKey) == NoSort <==> sortKey != Some(colKey)
    ensures AriaSortOf(sortKey, sortDir, colKey) == Ascending <==> sortKey == Some(colKey) && sortDir == Some(Asc)
    ensures AriaSortOf(sortKey, sortDir, colKey) == Descending <==> sortKey == Some(colKey) && sortDir == Some(Desc)
  {
    if sortKey == Some(colKey) {
      match sortDir.value {
        case Asc =>
        case Desc =>
      }
    }
  }

  /** The arrow beside a header: only on the sorted column, and only when
      both the table and the column allow sorting. */
  function SortIndicator(features: Features, col: Column, sortKey: Option<string>, sortDir: Option<SortDir>): Option<char>
  {
    if features.allowSorting && col.sortable && sortKey == Some(col.key) then
      Some(if sortDir == Some(Asc) then '\U{25B2}' else '\U{25BC}')
    else None
  }

  /** The arrow agrees with `aria-sort`: up for ascending, down for descending. */
  lemma SortIndicatorSpec(features: Features, col: Column, sortKey: Option<string>, sortDir: Option<SortDir>)
    requires SortConsistent(sortKey, sortDir)
    ensures SortIndicator(features, col, sortKey, sortDir).Some? <==>
      features.allowSorting && col.sortable && AriaSortOf(sortKey, sortDir, col.key) != NoSort
    ensures SortIndicator(features, col, sortKey, sortDir) == Some('\U{25B2}') ==> AriaSortOf(sortKey, sortDir, col.key) == Ascending
    ensures SortIndicator(features, col, sortKey, sortDir) == Some('\U{25BC}') ==> AriaSortOf(sortKey, sortDir, col.key) == Descending
  {
    AriaSortSpec(sortKey, sortDir, col.key);
  }

  /** The table's sort and search state. */
  class TableState {
    var sortKey: Option<string>
    var sortDir: Option<SortDir>
    var searchTerm: string

    ghost predicate Valid()
      reads this
    {
      SortConsistent(sortKey, sortDir)
    }

    constructor ()
      ensures Valid()
      ensures sortKey == None && sortDir == None && searchTerm == ""
    {
      sortKey, sortDir, searchTerm := None, None, "";
    }

    /** `handleSort`: returns the `onSort` call it makes, if any. */
    method HandleSort(key: string, features: Features) returns (call: Option<SortCall>)
      requires Valid()
      modifies this`sortKey, this`sortDir
      ensures Valid()
      ensures !features.allowSorting ==> sortKey == old(sortKey) && sortDir == old(sortDir) && call == None
      ensures features.allowSorting ==>
        (sortKey, sortDir) == NextSort(old(sortKey), old(sortDir), key) && call == Some(SortCall(key, sortDir))
    {
      if !features.allowSorting {
        return None;
      }
      if sortKey != Some(key) {
        sortKey := Some(key);
        sortDir := Some(Asc);
        call := Some(SortCall(key, Some(Asc)));
      } else if sortDir == Some(Asc) {
        sortDir := Some(Desc);
        call := Some(SortCall(key, Some(Desc)));
      } else {
        sortKey := None;
        sortDir := None;
        call := Some(SortCall(key, None));
      }
    }

    /** A click on a header cell: only sortable columns reach `handleSort`. */
    method ClickHeader(col: Column, features: Features) returns (call: Option<SortCall>)
      requires Valid()
      modifies this`sortKey, this`sortDir
      ensures Valid()
      ensures !col.sortable ==> sortKey == old(sortKey) && sortDir == old(sortDir) && call == None
      ensures col.sortable && features.allowSorting ==>
        (sortKey, sortDir) == NextSort(old(sortKey), old(sortDir), col.key) && call == Some(SortCall(col.key, sortDir))
      ensures col.sortable && !features.allowSorting ==> sortKey == old(sortKey) && sortDir == old(sortDir) && call == None
    {
      call := None;
      if col.sortable {
        call := HandleSort(col.key, features);
      }
    }

    /** The search box's `onChange`: the term is replaced, the sort is kept. */
    method SetSearchTerm(term: string)
      requires Valid()
      modifies this`searchTerm
      ensures Valid()
      ensures searchTerm == term
    {
      searchTerm := term;
    }
  }

  // ---------------------------------------------------------------------
  // Search

  /** Some field of the row contains the term, ignoring case. */
  predicate RowMatches(row: Row, term: string)
  {
    Find(row, (v: string) => Includes(Lower(v), Lower(term))).Some?
  }

  /** `filteredData`. */
  function FilteredData(data: seq<Row>, showSearch: bool, term: string): seq<Row>
  {
    if showSearch then Filter(data, (row: Row) => RowMatches(row, term)) else data
  }

  /** Without search every row is shown; with it, exactly the rows with a
      field containing the term, in their original order. */
  lemma SearchSpec(data: seq<Row>, showSearch: bool, term: string)
    ensures !showSearch ==> FilteredData(data, showSearch, term) == data
    ensures showSearch ==>
      var r := FilteredData(data, showSearch, term);
      && IsSubseq(r, data)
      && (forall row | row in r :: row in data &&
            exists i | 0 <= i < |row| :: Includes(Lower(row[i]), Lower(term)))
      && (forall row | row in data && (exists i | 0 <= i < |row| :: Includes(Lower(row[i]), Lower(term))) ::
            multiset(r)[row] == multiset(data)[row])
  {
    FilterSubseq(data, (row: Row) => RowMatches(row, term));
  }

  /** An empty search term keeps every row that has at least one field; a
      row without fields never matches. */
  lemma EmptyTermKeepsAll(data: seq<Row>)
    requires forall row | row in data :: row != []
    ensures FilteredData(data, true, "") == data
  {
    forall row | row in data ensures RowMatches(row, "") {
      IncludesEmpty(Lower(row[0]));
    }
    FilterAll(data, (row: Row) => RowMatches(row, ""));
  }

  // ---------------------------------------------------------------------
  // Pagination

  function Min(a: int, b: int): int { if a < b then a else b }
  function Max(a: int, b: int): int { if a > b then a else b }

  /** The first row number in "Showing x to y of total". */
  function ShowingStart(p: Pagination): int
  {
    Min((p.page - 1) * p.pageSize + 1, p.total)
  }

  /** The last row number in "Showing x to y of total". */
  function ShowingEnd(p: Pagination): int
  {
    Min(p.page * p.pageSize, p.total)
  }

  /** `Math.ceil(total / pageSize)`: the number of pages. */
  function PageCount(total: int, pageSize: int): (r: int)
    requires pageSize >= 1
    ensures pageSize * (r - 1) < total <= pageSize * r
  {
    var q := -((-total) / pageSize);
    assert (-total) == pageSize * ((-total) / pageSize) + (-total) % pageSize;
    q
  }

  function PrevTarget(p: Pagination): int
  {
    Max(1, p.page - 1)
  }

  predicate PrevDisabled(p: Pagination)
  {
    p.page <= 1
  }

  function NextTarget(p: Pagination): int
    requires p.pageSize >= 1
  {
    Min(PageCount(p.total, p.pageSize), p.page + 1)
  }

  predicate NextDisabled(p: Pagination)
    requires p.pageSize >= 1
  {
    p.page >= PageCount(p.total, p.pageSize)
  }

  /** The range shown never passes the total, and with a positive page size
      it is never reversed. */
  lemma ShowingRange(p: Pagination)
    requires p.pageSize >= 1
    ensures ShowingEnd(p) <= p.total
    ensures ShowingStart(p) <= ShowingEnd(p)
  {
    assert p.page * p.pageSize == (p.page - 1) * p.pageSize + p.pageSize;
  }

  /** On a page that holds rows, the range starts right after the previous
      pages and spans at most one page. */
  lemma ShowingOnPage(p: Pagination)
    requires p.pageSize >= 1 && p.page >= 1
    requires (p.page - 1) * p.pageSize < p.total
    ensures ShowingStart(p) == (p.page - 1) * p.pageSize + 1
    ensures ShowingEnd(p) - ShowingStart(p) + 1 == Min(p.pageSize, p.total - (p.page - 1) * p.pageSize)
  {
    assert p.page * p.pageSize == (p.page - 1) * p.pageSize + p.pageSize;
  }

  /** Prev goes one page back but never below 1, and is disabled on the
      first page; Next goes one page on but never past the last, and is
      disabled on the last page. An enabled button moves by exactly one. */
  lemma PrevNextSpec(p: Pagination)
    requires p.pageSize >= 1
    ensures PrevTarget(p) >= 1
    ensures !PrevDisabled(p) ==> PrevTarget(p) == p.page - 1
    ensures NextTarget(p) <= PageCount(p.total, p.pageSize)
    ensures !NextDisabled(p) ==> NextTarget(p) == p.page + 1
    ensures p.total <= 0 ==> PageCount(p.total, p.pageSize) <= 0
    ensures p.total > 0 ==> PageCount(p.total, p.pageSize) >= 1
  {
  }

  /** Starting from a page in `1..PageCount`, enabled Prev and Next clicks
      stay in that range. */
  lemma PagesStayInRange(p: Pagination)
    requires p.pageSize >= 1
    requires 1 <= p.page <= PageCount(p.total, p.pageSize)
    ensures !PrevDisabled(p) ==> 1 <= PrevTarget(p) <= PageCount(p.total, p.pageSize)
    ensures !NextDisabled(p) ==> 1 <= NextTarget(p) <= PageCount(p.total, p.pageSize)
  {
  }
}
