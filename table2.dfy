/** The generic data table used by several pages: free-text search over
    every column, a single-key sort that toggles between ascending and
    descending, fixed pages of ten rows with a windowed row of page buttons,
    per-column visibility, and the small display helpers it renders cells
    with. */
module Table2 {
  import opened JsValues
  import opened Seqs
  import opened Sorting

  const ItemsPerPage: nat := 10

  datatype Column = Column(header: string, accessor: string)

  datatype Direction = Asc | Desc

  /** `sortConfig`: no key means the filtered order is shown as is. */
  datatype SortConfig = SortConfig(key: Option<string>, direction: Direction)

  /** The `data` prop: an array of rows, or anything else. */
  datatype TableData = Rows(rows: seq<Record>) | NotAnArray

  // ----- search filter -----

  /** `String(v).toLowerCase().includes(term.toLowerCase())` */
  predicate MatchesTerm(v: Value, term: string) {
    Contains(Lower(Stringify(v)), Lower(term))
  }

  /** Some column matches the search term (hidden columns included) and every
      column filter matches. */
  predicate KeepRow(row: Record, columns: seq<Column>, term: string, filters: seq<(string, string)>) {
    && (exists i | 0 <= i < |columns| :: MatchesTerm(Get(row, columns[i].accessor), term))
    && (forall i | 0 <= i < |filters| :: MatchesTerm(Get(row, filters[i].0), filters[i].1))
  }

  function Keeper(columns: seq<Column>, term: string, filters: seq<(string, string)>): Record -> bool {
    row => KeepRow(row, columns, term, filters)
  }

  /** `filteredData` */
  function FilteredData(data: TableData, columns: seq<Column>, term: string, filters: seq<(string, string)>): seq<Record> {
    match data
    case NotAnArray => []
    case Rows(rows) => Filter(rows, Keeper(columns, term, filters))
  }

  /** The filter keeps exactly the rows that match, in their order, and a
      second pass changes nothing. */
  lemma FilteredDataSpec(data: TableData, columns: seq<Column>, term: string, filters: seq<(string, string)>)
    ensures data.NotAnArray? ==> FilteredData(data, columns, term, filters) == []
    ensures data.Rows? ==>
      var r := FilteredData(data, columns, term, filters);
      && Subseq(r, data.rows)
      && (forall i :: 0 <= i < |r| ==> KeepRow(r[i], columns, term, filters))
      && (forall i :: 0 <= i < |data.rows| && KeepRow(data.rows[i], columns, term, filters) ==> data.rows[i] in r)
      && FilteredData(Rows(r), columns, term, filters) == r
  {
    if data.Rows? {
      FilterIsSubseq(data.rows, Keeper(columns, term, filters));
      FilterIdempotent(data.rows, Keeper(columns, term, filters));
    }
  }

  /** A kept row keeps all its copies; a dropped row loses all of them. */
  lemma FilteredDataCounts(rows: seq<Record>, columns: seq<Column>, term: string, filters: seq<(string, string)>)
    ensures var r := FilteredData(Rows(rows), columns, term, filters);
      forall x :: multiset(r)[x] == if KeepRow(x, columns, term, filters) then multiset(rows)[x] else 0
  {
    FilterCounts(rows, Keeper(columns, term, filters));
  }

  /** An empty search with no column filters keeps every row, provided there
      is at least one column for `some` to try. */
  lemma EmptySearchKeepsAll(rows: seq<Record>, columns: seq<Column>)
    requires |columns| > 0
    ensures FilteredData(Rows(rows), columns, "", []) == rows
  {
    forall i | 0 <= i < |rows| ensures KeepRow(rows[i], columns, "", []) {
      ContainsEmpty(Lower(Stringify(Get(rows[i], columns[0].accessor))));
    }
    FilterKeepsAll(rows, Keeper(columns, "", []));
  }

  // ----- sort -----

  /** The comparator: a null value is "greater" before the direction is
      applied; a string compares with `localeCompare`, anything else by
      subtraction; descending negates the comparison. */
  function CompareRows(a: Record, b: Record, key: string, dir: Direction, localeCompare: (string, string) -> int): int {
    var aValue := Get(a, key);
    var bValue := Get(b, key);
    if aValue == Null then 1
    else if bValue == Null then -1
    else
      var comparison := if aValue.Str? then localeCompare(aValue.s, Stringify(bValue))
                        else NumericDifference(aValue, bValue);
      if dir == Asc then comparison else -comparison
  }

  function RowOrder(key: string, dir: Direction, localeCompare: (string, string) -> int): (Record, Record) -> int {
    (a, b) => CompareRows(a, b, key, dir, localeCompare)
  }

  predicate NoSortKey(config: SortConfig) {
    config.key.None? || config.key.value == ""
  }

  /** `sortedData`: the filtered rows when no key is set, else a sorted copy. */
  function SortedData(filtered: seq<Record>, config: SortConfig, localeCompare: (string, string) -> int): seq<Record> {
    if NoSortKey(config) then filtered
    else SortBy(filtered, RowOrder(config.key.value, config.direction, localeCompare))
  }

  /** The sorted view holds the same rows, each as often, as the filtered one;
      with no key it is the filtered list itself. */
  lemma SortedDataPermutes(filtered: seq<Record>, config: SortConfig, localeCompare: (string, string) -> int)
    ensures multiset(SortedData(filtered, config, localeCompare)) == multiset(filtered)
    ensures NoSortKey(config) ==> SortedData(filtered, config, localeCompare) == filtered
  {
    if !NoSortKey(config) {
      SortPermutes(filtered, RowOrder(config.key.value, config.direction, localeCompare));
    }
  }

  function NullAt(key: string): Record -> bool {
    row => Get(row, key) == Null
  }

  function NotNullAt(key: string): Record -> bool {
    row => Get(row, key) != Null
  }

  /** A null-keyed row sorts after every row: the comparator answers 1. */
  lemma NullKeyedLast(x: Record, r: seq<Record>, key: string, dir: Direction, localeCompare: (string, string) -> int)
    requires Get(x, key) == Null
    ensures Insert(x, r, RowOrder(key, dir, localeCompare)) == r + [x]
  {
    InsertLast(x, r, RowOrder(key, dir, localeCompare));
  }

  /** A row with a key sorts before a null-keyed one: the comparator answers -1. */
  lemma KeyedBeforeNulls(x: Record, a: seq<Record>, b: seq<Record>, key: string, dir: Direction, localeCompare: (string, string) -> int)
    requires Get(x, key) != Null
    requires b == [] || Get(b[0], key) == Null
    ensures Insert(x, a + b, RowOrder(key, dir, localeCompare)) == Insert(x, a, RowOrder(key, dir, localeCompare)) + b
  {
    InsertBeforeSuffix(x, a, b, RowOrder(key, dir, localeCompare));
  }

  lemma FilterSingle(x: Record, p: Record -> bool)
    ensures Filter([x], p) == if p(x) then [x] else []
  {
    assert [x][1..] == [];
  }

  /** Sorting puts the rows whose key is not null first, sorted among
      themselves, followed by the null-keyed rows in their original order;
      this holds in both directions. */
  lemma {:induction false} NullsLast(rows: seq<Record>, key: string, dir: Direction, localeCompare: (string, string) -> int)
    ensures SortBy(rows, RowOrder(key, dir, localeCompare))
         == SortBy(Filter(rows, NotNullAt(key)), RowOrder(key, dir, localeCompare)) + Filter(rows, NullAt(key))
  {
    var cmp := RowOrder(key, dir, localeCompare);
    if rows != [] {
      var p, x := rows[..|rows| - 1], rows[|rows| - 1];
      assert rows == p + [x];
      NullsLast(p, key, dir, localeCompare);
      FilterAppend(p, [x], NotNullAt(key));
      FilterAppend(p, [x], NullAt(key));
      FilterSingle(x, NotNullAt(key));
      FilterSingle(x, NullAt(key));
      var n := Filter(p, NotNullAt(key));
      var b := Filter(p, NullAt(key));
      assert SortBy(rows, cmp) == Insert(x, SortBy(n, cmp) + b, cmp);
      if Get(x, key) == Null {
        NullKeyedLast(x, SortBy(n, cmp) + b, key, dir, localeCompare);
        assert Filter(rows, NotNullAt(key)) == n + [];
        assert n + [] == n;
      } else {
        if b != [] {
          assert b[0] in b;
        }
        KeyedBeforeNulls(x, SortBy(n, cmp), b, key, dir, localeCompare);
        assert Filter(rows, NullAt(key)) == b + [];
        assert b + [] == b;
        var q := n + [x];
        assert q[..|q| - 1] == n;
        assert SortBy(q, cmp) == Insert(x, SortBy(n, cmp), cmp);
      }
    }
  }

  /** No null-keyed row precedes a row whose key is not null, and the rows
      with a key all sit in the sorted prefix. */
  lemma NullKeyedRowsTrail(rows: seq<Record>, key: string, dir: Direction, localeCompare: (string, string) -> int)
    ensures var r := SortBy(rows, RowOrder(key, dir, localeCompare));
      forall i, j :: 0 <= i < j < |r| && Get(r[i], key) == Null ==> Get(r[j], key) == Null
  {
    var cmp := RowOrder(key, dir, localeCompare);
    NullsLast(rows, key, dir, localeCompare);
    var nn := Filter(rows, NotNullAt(key));
    var a := SortBy(nn, cmp);
    SortPermutes(nn, cmp);
    forall i | 0 <= i < |a| ensures Get(a[i], key) != Null {
      assert a[i] in multiset(a);
      assert a[i] in nn;
      var k :| 0 <= k < |nn| && nn[k] == a[i];
    }
  }

  lemma KeyedInDom(rows: seq<Record>, key: string, dom: iset<Record>)
    requires forall i :: 0 <= i < |rows| && Get(rows[i], key) != Null ==> rows[i] in dom
    ensures var nn := Filter(rows, NotNullAt(key)); forall i :: 0 <= i < |nn| ==> nn[i] in dom
  {
    var nn := Filter(rows, NotNullAt(key));
    forall i | 0 <= i < |nn| ensures nn[i] in dom {
      assert nn[i] in rows && Get(nn[i], key) != Null;
      var k :| 0 <= k < |rows| && rows[k] == nn[i];
    }
  }

  lemma SortedThenNulls(a: seq<Record>, nulls: seq<Record>, key: string, cmp: (Record, Record) -> int)
    requires Sorted(a, cmp)
    requires forall k :: 0 <= k < |nulls| ==> Get(nulls[k], key) == Null
    ensures var r := a + nulls;
      forall i, j :: 0 <= i < j < |r| && Get(r[i], key) != Null && Get(r[j], key) != Null ==> cmp(r[i], r[j]) <= 0
  {
    var r := a + nulls;
    forall k | |a| <= k < |r| ensures Get(r[k], key) == Null {
      assert r[k] == nulls[k - |a|];
    }
    forall i, j | 0 <= i < j < |r| && Get(r[i], key) != Null && Get(r[j], key) != Null
      ensures cmp(r[i], r[j]) <= 0
    {
      assert r[i] == a[i] && r[j] == a[j];
    }
  }

  /** For any domain the comparator is consistent on, two rows with keys come
      out in comparator order. */
  lemma KeyedRowsSorted(rows: seq<Record>, key: string, dir: Direction, localeCompare: (string, string) -> int, dom: iset<Record>)
    requires ConsistentOn(RowOrder(key, dir, localeCompare), dom)
    requires forall i :: 0 <= i < |rows| && Get(rows[i], key) != Null ==> rows[i] in dom
    ensures var r := SortBy(rows, RowOrder(key, dir, localeCompare));
      forall i, j :: 0 <= i < j < |r| && Get(r[i], key) != Null && Get(r[j], key) != Null ==>
        CompareRows(r[i], r[j], key, dir, localeCompare) <= 0
  {
    var cmp := RowOrder(key, dir, localeCompare);
    NullsLast(rows, key, dir, localeCompare);
    var nn := Filter(rows, NotNullAt(key));
    KeyedInDom(rows, key, dom);
    SortSorts(nn, cmp, dom);
    SortedThenNulls(SortBy(nn, cmp), Filter(rows, NullAt(key)), key, cmp);
  }

  /** `localeCompare` is a total preorder on strings. */
  ghost predicate LocalePreorder(localeCompare: (string, string) -> int) {
    && (forall a, b :: localeCompare(a, b) < 0 <==> localeCompare(b, a) > 0)
    && (forall a, b, c :: localeCompare(a, b) <= 0 && localeCompare(b, c) <= 0 ==> localeCompare(a, c) <= 0)
  }

  ghost function StrKeyed(key: string): iset<Record> {
    iset r | Get(r, key).Str?
  }

  lemma StringOrderConsistent(key: string, dir: Direction, localeCompare: (string, string) -> int)
    requires LocalePreorder(localeCompare)
    ensures ConsistentOn(RowOrder(key, dir, localeCompare), StrKeyed(key))
  {
  }

  /** With string keys and a consistent `localeCompare`, the rows with keys
      come out in `localeCompare` order, reversed for a descending sort. */
  lemma StringKeysSorted(rows: seq<Record>, key: string, dir: Direction, localeCompare: (string, string) -> int)
    requires LocalePreorder(localeCompare)
    requires forall i :: 0 <= i < |rows| ==> Get(rows[i], key).Str? || Get(rows[i], key) == Null
    ensures var r := SortBy(rows, RowOrder(key, dir, localeCompare));
      forall i, j :: 0 <= i < j < |r| && Get(r[i], key).Str? && Get(r[j], key).Str? ==>
        if dir == Asc then localeCompare(Get(r[i], key).s, Get(r[j], key).s) <= 0
        else localeCompare(Get(r[j], key).s, Get(r[i], key).s) <= 0
  {
    StringOrderConsistent(key, dir, localeCompare);
    KeyedRowsSorted(rows, key, dir, localeCompare, StrKeyed(key));
  }

  ghost function NumKeyed(key: string): iset<Record> {
    iset r | Get(r, key).Num?
  }

  /** With numeric keys the rows with keys come out in ascending (or, for a
      descending sort, descending) numeric order. */
  lemma NumberKeysSorted(rows: seq<Record>, key: string, dir: Direction, localeCompare: (string, string) -> int)
    requires forall i :: 0 <= i < |rows| ==> Get(rows[i], key).Num? || Get(rows[i], key) == Null
    ensures var r := SortBy(rows, RowOrder(key, dir, localeCompare));
      forall i, j :: 0 <= i < j < |r| && Get(r[i], key).Num? && Get(r[j], key).Num? ==>
        if dir == Asc then Get(r[i], key).n <= Get(r[j], key).n
        else Get(r[i], key).n >= Get(r[j], key).n
  {
    NumberOrderConsistent(key, dir, localeCompare);
    KeyedRowsSorted(rows, key, dir, localeCompare, NumKeyed(key));
    assert var r := SortBy(rows, RowOrder(key, dir, localeCompare));
      forall i, j :: 0 <= i < j < |r| && Get(r[i], key) != Null && Get(r[j], key) != Null ==>
        CompareRows(r[i], r[j], key, dir, localeCompare) <= 0;
    var r := SortBy(rows, RowOrder(key, dir, localeCompare));
    assert forall i, j :: 0 <= i < j < |r| && Get(r[i], key) != Null && Get(r[j], key) != Null ==>
             CompareRows(r[i], r[j], key, dir, localeCompare) <= 0;
    forall i, j | 0 <= i < j < |r| && Get(r[i], key).Num? && Get(r[j], key).Num?
      ensures if dir == Asc then Get(r[i], key).n <= Get(r[j], key).n
              else Get(r[i], key).n >= Get(r[j], key).n
    {
      assert Get(r[i], key) != Null && Get(r[j], key) != Null;
      assert CompareRows(r[i], r[j], key, dir, localeCompare) <= 0;
      NumberComparison(r[i], r[j], key, dir, localeCompare);
    }
  }

  lemma NumberComparison(a: Record, b: Record, key: string, dir: Direction, localeCompare: (string, string) -> int)
    requires Get(a, key).Num? && Get(b, key).Num?
    ensures CompareRows(a, b, key, dir, localeCompare)
            == if dir == Asc then Get(a, key).n - Get(b, key).n else Get(b, key).n - Get(a, key).n
  {
  }

  lemma NumberOrderConsistent(key: string, dir: Direction, localeCompare: (string, string) -> int)
    ensures ConsistentOn(RowOrder(key, dir, localeCompare), NumKeyed(key))
  {
    forall a, b | a in NumKeyed(key) && b in NumKeyed(key)
      ensures CompareRows(a, b, key, dir, localeCompare) < 0 <==> CompareRows(b, a, key, dir, localeCompare) > 0
    {
      NumberComparison(a, b, key, dir, localeCompare);
      NumberComparison(b, a, key, dir, localeCompare);
    }
    forall a, b, c | a in NumKeyed(key) && b in NumKeyed(key) && c in NumKeyed(key)
      && CompareRows(a, b, key, dir, localeCompare) <= 0 && CompareRows(b, c, key, dir, localeCompare) <= 0
      ensures CompareRows(a, c, key, dir, localeCompare) <= 0
    {
      NumberComparison(a, b, key, dir, localeCompare);
      NumberComparison(b, c, key, dir, localeCompare);
      NumberComparison(a, c, key, dir, localeCompare);
    }
  }

  // ----- pagination -----

  /** `Math.ceil(n / itemsPerPage)` */
  function TotalPages(n: nat): (pages: nat)
    ensures pages * ItemsPerPage >= n
    ensures n > 0 ==> (pages - 1) * ItemsPerPage < n
    ensures n == 0 <==> pages == 0
  {
    (n + ItemsPerPage - 1) / ItemsPerPage
  }

  /** `sortedData.slice((page - 1) * itemsPerPage, page * itemsPerPage)` */
  function PageOf(sorted: seq<Record>, page: int): (r: seq<Record>)
    ensures page >= 1 ==> |r| <= ItemsPerPage
  {
    Slice(sorted, (page - 1) * ItemsPerPage, page * ItemsPerPage)
  }

  /** Pages 1..k laid end to end. */
  function PagesUpTo(sorted: seq<Record>, k: nat): seq<Record> {
    if k == 0 then [] else PagesUpTo(sorted, k - 1) + PageOf(sorted, k)
  }

  lemma {:induction false} PagesUpToPrefix(sorted: seq<Record>, k: nat)
    ensures PagesUpTo(sorted, k) == sorted[..if k * ItemsPerPage <= |sorted| then k * ItemsPerPage else |sorted|]
  {
    if k > 0 {
      PagesUpToPrefix(sorted, k - 1);
    }
  }

  /** The pages tile the sorted rows: laid end to end, pages 1 to
      `TotalPages` give back exactly the sorted list. */
  lemma PagesTile(sorted: seq<Record>)
    ensures PagesUpTo(sorted, TotalPages(|sorted|)) == sorted
  {
    PagesUpToPrefix(sorted, TotalPages(|sorted|));
  }

  /** The "previous" button: `Math.max(prev - 1, 1)` */
  function ClampPrevious(page: int): int {
    if page - 1 > 1 then page - 1 else 1
  }

  /** The "next" button: `Math.min(prev + 1, totalPages)` */
  function ClampNext(page: int, totalPages: int): int {
    if page + 1 < totalPages then page + 1 else totalPages
  }

  /** From a page in range, both buttons stay in `[1, totalPages]`, and they
      move by at most one page. */
  lemma NavigationClamped(page: int, totalPages: int)
    requires 1 <= page <= totalPages
    ensures 1 <= ClampPrevious(page) <= totalPages && ClampPrevious(page) >= page - 1
    ensures 1 <= ClampNext(page, totalPages) <= totalPages && ClampNext(page, totalPages) <= page + 1
    ensures page > 1 ==> ClampPrevious(page) == page - 1
    ensures page < totalPages ==> ClampNext(page, totalPages) == page + 1
  {
  }

  // ----- page buttons -----

  datatype PageEntry = Button(page: int) | Ellipsis(page: int)

  predicate ShowsButton(i: int, currentPage: int, totalPages: int) {
    i == 1 || i == totalPages || (currentPage - 1 <= i <= currentPage + 1)
  }

  predicate ShowsEllipsis(i: int, currentPage: int, totalPages: int) {
    !ShowsButton(i, currentPage, totalPages) && (i == currentPage - 2 || i == currentPage + 2)
  }

  /** What page `i` contributes: a button, an ellipsis, or nothing. */
  function EntryFor(i: int, currentPage: int, totalPages: int): seq<PageEntry> {
    if ShowsButton(i, currentPage, totalPages) then [Button(i)]
    else if ShowsEllipsis(i, currentPage, totalPages) then [Ellipsis(i)]
    else []
  }

  lemma EntryForPage(i: int, currentPage: int, totalPages: int)
    ensures |EntryFor(i, currentPage, totalPages)| <= 1
    ensures forall k :: 0 <= k < |EntryFor(i, currentPage, totalPages)| ==>
              EntryFor(i, currentPage, totalPages)[k].page == i && i in Window(currentPage, totalPages)
  {
    var w := Window(currentPage, totalPages);
    if ShowsButton(i, currentPage, totalPages) {
      assert i == 1 || i == totalPages || i == currentPage - 1 || i == currentPage || i == currentPage + 1;
      assert i in w;
      assert EntryFor(i, currentPage, totalPages) == [Button(i)];
    } else if ShowsEllipsis(i, currentPage, totalPages) {
      assert i in w;
      assert EntryFor(i, currentPage, totalPages) == [Ellipsis(i)];
    }
  }

  /** The entries contributed by pages `1..n`, in page order. */
  function EntriesUpTo(n: int, currentPage: int, totalPages: int): seq<PageEntry>
    decreases n
  {
    if n < 1 then [] else EntriesUpTo(n - 1, currentPage, totalPages) + EntryFor(n, currentPage, totalPages)
  }

  /** The only page numbers that can get an entry. */
  function Window(currentPage: int, totalPages: int): set<int> {
    {1, totalPages, currentPage - 2, currentPage - 1, currentPage, currentPage + 1, currentPage + 2}
  }

  /** Strictly ascending page numbers, all in `1..n` and in the window. */
  predicate OrderedEntries(e: seq<PageEntry>, n: int, currentPage: int, totalPages: int) {
    && (forall k :: 0 <= k < |e| ==> 1 <= e[k].page <= n && e[k].page in Window(currentPage, totalPages))
    && (forall k, l :: 0 <= k < l < |e| ==> e[k].page < e[l].page)
  }

  /** The entries for pages `1..n` are strictly ascending and lie in `1..n`
      and in the window around the current page. */
  lemma {:induction false} EntriesOrdered(n: int, currentPage: int, totalPages: int)
    ensures OrderedEntries(EntriesUpTo(n, currentPage, totalPages), n, currentPage, totalPages)
    decreases n
  {
    if n >= 1 {
      EntriesOrdered(n - 1, currentPage, totalPages);
      var prev := EntriesUpTo(n - 1, currentPage, totalPages);
      var last := EntryFor(n, currentPage, totalPages);
      var e := EntriesUpTo(n, currentPage, totalPages);
      assert e == prev + last;
      EntryForPage(n, currentPage, totalPages);
      forall k | 0 <= k < |e| ensures 1 <= e[k].page <= n && e[k].page in Window(currentPage, totalPages) {
        if k >= |prev| {
          assert e[k] == last[k - |prev|];
        } else {
          assert e[k] == prev[k];
        }
      }
      forall k, l | 0 <= k < l < |e| ensures e[k].page < e[l].page {
        assert e[k] == prev[k];
        if l >= |prev| {
          assert e[l] == last[l - |prev|];
        } else {
          assert e[l] == prev[l];
        }
      }
    }
  }

  /** Page `i` of `1..n` has a button exactly when it is the first, the last
      or a neighbour of the current page, and an ellipsis exactly when it is
      two away and not a button. */
  lemma {:induction false} EntriesMembership(n: int, currentPage: int, totalPages: int)
    ensures var e := EntriesUpTo(n, currentPage, totalPages);
      && (forall i :: 1 <= i <= n ==> (Button(i) in e <==> ShowsButton(i, currentPage, totalPages)))
      && (forall i :: 1 <= i <= n ==> (Ellipsis(i) in e <==> ShowsEllipsis(i, currentPage, totalPages)))
    decreases n
  {
    if n >= 1 {
      EntriesMembership(n - 1, currentPage, totalPages);
      EntriesOrdered(n - 1, currentPage, totalPages);
      var prev := EntriesUpTo(n - 1, currentPage, totalPages);
      var last := EntryFor(n, currentPage, totalPages);
      var e := EntriesUpTo(n, currentPage, totalPages);
      assert e == prev + last;
      assert Button(n) !in prev && Ellipsis(n) !in prev by {
        forall k | 0 <= k < |prev| ensures prev[k].page < n { }
      }
      forall i | 1 <= i < n
        ensures Button(i) !in last && Ellipsis(i) !in last
      {
      }
    }
  }

  /** Entries with strictly ascending page numbers, all drawn from `w`,
      number at most `|w|`. */
  lemma {:induction false} AscendingWithinWindow(entries: seq<PageEntry>, w: set<int>)
    requires forall k, l :: 0 <= k < l < |entries| ==> entries[k].page < entries[l].page
    requires forall k :: 0 <= k < |entries| ==> entries[k].page in w
    ensures |entries| <= |w|
  {
    if entries != [] {
      var rest := entries[1..];
      AscendingWithinWindow(rest, w - {entries[0].page});
    }
  }

  lemma WindowSize(currentPage: int, totalPages: int)
    ensures |Window(currentPage, totalPages)| <= 7
  {
    var w := Window(currentPage, totalPages);
    assert w == {1} + {totalPages} + {currentPage - 2} + {currentPage - 1} + {currentPage} + {currentPage + 1} + {currentPage + 2};
  }

  /** `renderPaginationButtons`: at most seven entries, in page order. */
  method PaginationButtons(currentPage: int, totalPages: int) returns (buttons: seq<PageEntry>)
    ensures buttons == EntriesUpTo(totalPages, currentPage, totalPages)
    ensures forall k :: 0 <= k < |buttons| ==> 1 <= buttons[k].page <= totalPages
    ensures forall k, l :: 0 <= k < l < |buttons| ==> buttons[k].page < buttons[l].page
    ensures forall i :: 1 <= i <= totalPages ==>
              (Button(i) in buttons <==> ShowsButton(i, currentPage, totalPages))
    ensures forall i :: 1 <= i <= totalPages ==>
              (Ellipsis(i) in buttons <==> ShowsEllipsis(i, currentPage, totalPages))
    ensures |buttons| <= 7
  {
    buttons := [];
    var i := 1;
    while i <= totalPages
      invariant 1 <= i <= if totalPages >= 1 then totalPages + 1 else 1
      invariant buttons == EntriesUpTo(i - 1, currentPage, totalPages)
    {
      if i == 1 || i == totalPages || (i >= currentPage - 1 && i <= currentPage + 1) {
        buttons := buttons + [Button(i)];
      } else if i == currentPage - 2 || i == currentPage + 2 {
        buttons := buttons + [Ellipsis(i)];
      }
      i := i + 1;
    }
    EntriesOrdered(totalPages, currentPage, totalPages);
    EntriesMembership(totalPages, currentPage, totalPages);
    AscendingWithinWindow(buttons, Window(currentPage, totalPages));
    WindowSize(currentPage, totalPages);
  }

  // ----- column visibility -----

  function Accessors(columns: seq<Column>): set<string> {
    set i | 0 <= i < |columns| :: columns[i].accessor
  }

  /** The initial `visibleColumns`: every column shown. */
  function AllVisible(columns: seq<Column>): (m: map<string, bool>)
    ensures m.Keys == Accessors(columns)
    ensures forall a :: a in m ==> m[a]
  {
    map a | a in Accessors(columns) :: true
  }

  /** `{ ...prev, [accessor]: !prev[accessor] }`; a missing entry reads as
      undefined, so it becomes `true`. */
  function ToggleVisibility(m: map<string, bool>, accessor: string): map<string, bool> {
    m[accessor := !(accessor in m && m[accessor])]
  }

  /** Toggling flips exactly one entry; toggling it again restores the map. */
  lemma ToggleFlipsOne(m: map<string, bool>, accessor: string)
    requires accessor in m
    ensures ToggleVisibility(m, accessor).Keys == m.Keys
    ensures ToggleVisibility(m, accessor)[accessor] == !m[accessor]
    ensures forall a :: a in m && a != accessor ==> ToggleVisibility(m, accessor)[a] == m[a]
    ensures ToggleVisibility(ToggleVisibility(m, accessor), accessor) == m
  {
  }

  /** Header clicks: the same column toggles asc -> desc, anything else
      starts at asc. */
  function NextSortConfig(config: SortConfig, accessor: string): SortConfig {
    SortConfig(Some(accessor), if config.key == Some(accessor) && config.direction == Asc then Desc else Asc)
  }

  /** Clicking one column twice in a row returns to where it started when it
      was already ascending, and ends descending otherwise. */
  lemma SortClickTwice(config: SortConfig, accessor: string)
    ensures NextSortConfig(NextSortConfig(config, accessor), accessor)
         == SortConfig(Some(accessor), if config.key == Some(accessor) && config.direction == Asc then Asc else Desc)
    ensures NextSortConfig(config, accessor).key == Some(accessor)
  {
  }

  /** The table's state. The props (`columns`, `data`) are fields too, and
      `localeCompare` stands for the engine's collation. */
  class TableView {
    const columns: seq<Column>
    const localeCompare: (string, string) -> int
    var data: TableData
    var searchTerm: string
    var filters: seq<(string, string)>
    var visibleColumns: map<string, bool>
    var currentPage: int
    var sortConfig: SortConfig

    constructor (columns: seq<Column>, data: TableData, localeCompare: (string, string) -> int)
      ensures this.columns == columns && this.data == data && this.localeCompare == localeCompare
      ensures searchTerm == "" && filters == [] && currentPage == 1
      ensures sortConfig == SortConfig(None, Asc)
      ensures visibleColumns == AllVisible(columns)
    {
      this.columns := columns;
      this.data := data;
      this.localeCompare := localeCompare;
      searchTerm := "";
      filters := [];
      visibleColumns := AllVisible(columns);
      currentPage := 1;
      sortConfig := SortConfig(None, Asc);
    }

    function Filtered(): seq<Record>
      reads this
    {
      FilteredData(data, columns, searchTerm, filters)
    }

    function Sorted(): seq<Record>
      reads this
    {
      SortedData(Filtered(), sortConfig, localeCompare)
    }

    function Total(): nat
      reads this
    {
      TotalPages(|Sorted()|)
    }

    /** `paginatedData`: the rows on the current page. */
    function Paginated(): seq<Record>
      reads this
    {
      PageOf(Sorted(), currentPage)
    }

    /** `handleSort` */
    method HandleSort(accessor: string)
      modifies this
      ensures sortConfig == NextSortConfig(old(sortConfig), accessor)
      ensures sortConfig.key == Some(accessor)
      ensures sortConfig.direction == Desc <==> old(sortConfig) == SortConfig(Some(accessor), Asc)
      ensures data == old(data) && searchTerm == old(searchTerm) && filters == old(filters)
      ensures visibleColumns == old(visibleColumns) && currentPage == old(currentPage)
    {
      var desc := sortConfig.key == Some(accessor) && sortConfig.direction == Asc;
      sortConfig := SortConfig(Some(accessor), if desc then Desc else Asc);
    }

    /** `toggleColumnVisibility` */
    method ToggleColumnVisibility(accessor: string)
      modifies this
      ensures visibleColumns == ToggleVisibility(old(visibleColumns), accessor)
      ensures visibleColumns[accessor] == !(accessor in old(visibleColumns) && old(visibleColumns)[accessor])
      ensures forall a :: a != accessor && a in old(visibleColumns) ==>
                a in visibleColumns && visibleColumns[a] == old(visibleColumns)[a]
      ensures data == old(data) && searchTerm == old(searchTerm) && filters == old(filters)
      ensures sortConfig == old(sortConfig) && currentPage == old(currentPage)
    {
      var shown := accessor in visibleColumns && visibleColumns[accessor];
      visibleColumns := visibleColumns[accessor := !shown];
    }

    /** The search box; the current page is not reset. */
    method SetSearchTerm(term: string)
      modifies this
      ensures searchTerm == term
      ensures data == old(data) && filters == old(filters) && visibleColumns == old(visibleColumns)
      ensures sortConfig == old(sortConfig) && currentPage == old(currentPage)
    {
      searchTerm := term;
    }

    /** The "previous" arrow. */
    method PreviousPage()
      modifies this
      ensures currentPage == ClampPrevious(old(currentPage))
      ensures currentPage >= 1
      ensures data == old(data) && searchTerm == old(searchTerm) && filters == old(filters)
      ensures visibleColumns == old(visibleColumns) && sortConfig == old(sortConfig)
    {
      var page := currentPage - 1;
      if page < 1 {
        page := 1;
      }
      currentPage := page;
    }

    /** The "next" arrow; on an empty table it moves to page 0. */
    method NextPage()
      modifies this
      ensures currentPage == ClampNext(old(currentPage), old(Total()))
      ensures currentPage <= old(Total())
      ensures data == old(data) && searchTerm == old(searchTerm) && filters == old(filters)
      ensures visibleColumns == old(visibleColumns) && sortConfig == old(sortConfig)
    {
      var page := currentPage + 1;
      var total := Total();
      if page > total {
        page := total;
      }
      currentPage := page;
    }

    /** A numbered page button. */
    method GoToPage(i: int)
      modifies this
      ensures currentPage == i
      ensures data == old(data) && searchTerm == old(searchTerm) && filters == old(filters)
      ensures visibleColumns == old(visibleColumns) && sortConfig == old(sortConfig)
    {
      currentPage := i;
    }
  }

  // ----- cell helpers -----

  /** `getStatusColor`: a falsy status is grey; a string is matched after
      lower-casing; any other value has no `toLowerCase` and throws. */
  function StatusColor(status: Value): (color: Result<string>)
    ensures !Truthy(status) ==> color == Done("bg-gray-200")
    ensures color == Thrown <==> Truthy(status) && !status.Str?
  {
    if !Truthy(status) then Done("bg-gray-200")
    else if !status.Str? then Thrown
    else
      var s := Lower(status.s);
      Done(
        if s == "completed" then "bg-green-500"
        else if s == "processing" then "bg-yellow-500"
        else if s == "failed" then "bg-red-500"
        else if s == "safe" then "bg-green-500 text-background"
        else if s == "unsafe" then "bg-red-500 text-background"
        else if s == "pending" then "bg-blue-500 text-background"
        else "bg-gray-500")
  }

  /** Status matching ignores case; the three dispute states get three
      different colours, and a falsy status is grey. */
  lemma StatusColorCaseInsensitive(s: string)
    ensures StatusColor(Str(s)) == StatusColor(Str(Lower(s)))
    ensures StatusColor(Str(s)).Done?
    ensures Lower(s) == "safe" ==> StatusColor(Str(s)) == Done("bg-green-500 text-background")
    ensures Lower(s) == "unsafe" ==> StatusColor(Str(s)) == Done("bg-red-500 text-background")
    ensures Lower(s) == "pending" ==> StatusColor(Str(s)) == Done("bg-blue-500 text-background")
    ensures s == "" ==> StatusColor(Str(s)) == Done("bg-gray-200")
  {
    LowerIdempotent(s);
  }

  /** `getThreatScoreColor`: `score >= 80`, `>= 60`, `>= 40` after numeric
      coercion; NaN passes no threshold. */
  function ThreatScoreColor(score: Value): string {
    var n := ToNumber(score);
    if n.Some? && n.value >= 80 then "text-red-600 font-bold"
    else if n.Some? && n.value >= 60 then "text-orange-500 font-semibold"
    else if n.Some? && n.value >= 40 then "text-yellow-500"
    else "text-green-500"
  }

  /** The four colours from least to most severe. */
  const ThreatPalette: seq<string> :=
    ["text-green-500", "text-yellow-500", "text-orange-500 font-semibold", "text-red-600 font-bold"]

  /** Which band of twenty points a score falls in, capped at 0 and 3. */
  function ThreatBand(n: int): (band: nat)
    ensures band < 4
  {
    if n < 40 then 0 else if n >= 80 then 3 else (n - 40) / 20 + 1
  }

  /** The colour is the band's entry of the palette, so a higher score never
      gets a less severe colour. */
  lemma ThreatScoreBands(n: int, m: int)
    ensures ThreatScoreColor(Num(n)) == ThreatPalette[ThreatBand(n)]
    ensures n <= m ==> ThreatBand(n) <= ThreatBand(m)
  {
  }

  // ----- DateFormatter's clock -----

  /** A 12-hour clock reading back in 24-hour form. */
  function From12Hour(hours: int, ampm: string): int {
    hours % 12 + (if ampm == "PM" then 12 else 0)
  }

  /** The hour part of `DateFormatter`: `ampm` from the 24-hour value, then
      `hours % 12`, then 0 shown as 12, padded to two digits. */
  method To12Hour(hours24: int) returns (hours: int, ampm: string, shown: string)
    requires 0 <= hours24 < 24
    ensures 1 <= hours <= 12 && hours % 12 == hours24 % 12
    ensures ampm == (if hours24 < 12 then "AM" else "PM")
    ensures From12Hour(hours, ampm) == hours24
    ensures |shown| == 2 && shown == PadStartZeros(NumberToString(hours), 2)
  {
    hours := hours24;
    ampm := if hours >= 12 then "PM" else "AM";
    hours := hours % 12;
    hours := if hours != 0 then hours else 12;
    assert |NatToDecimal(hours)| <= 2 by {
      if hours >= 10 {
        assert NatToDecimal(hours) == NatToDecimal(hours / 10) + [DigitChar(hours % 10)];
        assert |NatToDecimal(hours / 10)| == 1;
      }
    }
    shown := PadStartZeros(NumberToString(hours), 2);
  }
}
