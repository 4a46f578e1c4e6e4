/** The Rogue DB page: three lists of known-bad URLs, domains and mail
    addresses, each shown in a tab with a search box over every field, a
    header-click sort, pages of ten with running serial numbers, and a
    per-column visibility map. */
module RogueDB {
  import opened JsValues
  import opened Seqs
  import opened Sorting

  const PageSize: nat := 10

  datatype Tab = Url | Domain | Mail

  datatype Direction = Asc | Desc

  /** A row as the server sends it: its fields in property order, which is
      the order `Object.values` visits them in. */
  type Item = seq<(string, Value)>

  /** `item[key]`: the value of the first field named `key`. */
  function Lookup(item: Item, key: string): Value
    decreases |item|
  {
    if item == [] then Undefined
    else if item[0].0 == key then item[0].1
    else Lookup(item[1..], key)
  }

  function Values(item: Item): seq<Value> {
    seq(|item|, i requires 0 <= i < |item| => item[i].1)
  }

  function Headers(tab: Tab): seq<string> {
    match tab
    case Url => ["Sr. No.", "URL", "Protocol"]
    case Domain => ["Sr. No.", "IP", "Prototype"]
    case Mail => ["Sr. No.", "Mail ID"]
  }

  function DataKeys(tab: Tab): (keys: seq<string>)
    ensures |keys| == |Headers(tab)|
  {
    match tab
    case Url => ["sr_no", "url", "protocol"]
    case Domain => ["sr_no", "ip", "prototype"]
    case Mail => ["sr_no", "mailid"]
  }

  // ----- column visibility -----

  /** `header.toLowerCase().replace(/ /g, "_")` */
  function ColumnKey(header: string): (key: string)
    ensures |key| == |header|
    ensures forall i :: 0 <= i < |header| ==>
              key[i] == (if header[i] == ' ' then '_' else LowerChar(header[i]))
  {
    var lower := Lower(header);
    seq(|lower|, i requires 0 <= i < |lower| => if lower[i] == ' ' then '_' else lower[i])
  }

  function ColumnKeys(headers: seq<string>): set<string> {
    set i | 0 <= i < |headers| :: ColumnKey(headers[i])
  }

  /** `initializeVisibleColumns`: one `true` entry per header of the tab. */
  method InitializeVisibleColumns(headers: seq<string>) returns (columns: map<string, bool>)
    ensures columns.Keys == ColumnKeys(headers)
    ensures forall k :: k in columns ==> columns[k]
  {
    columns := map[];
    var i := 0;
    while i < |headers|
      invariant 0 <= i <= |headers|
      invariant columns.Keys == ColumnKeys(headers[..i])
      invariant forall k :: k in columns ==> columns[k]
    {
      assert headers[..i + 1] == headers[..i] + [headers[i]];
      columns := columns[ColumnKey(headers[i]) := true];
      i := i + 1;
    }
    assert headers[..|headers|] == headers;
  }

  /** The keys the mail tab starts with: the header "Mail ID" becomes
      "mail_id", which is not the data key "mailid". */
  lemma MailColumnKeys()
    ensures ColumnKeys(Headers(Mail)) == {"sr._no.", "mail_id"}
  {
    var h := Headers(Mail);
    assert ColumnKey(h[0]) == "sr._no.";
    assert ColumnKey(h[1]) == "mail_id";
    assert ColumnKeys(h) == {ColumnKey(h[0]), ColumnKey(h[1])};
  }

  // ----- search -----

  /** `value.toString().toLowerCase().includes(searchTerm.toLowerCase())`:
      `null` and `undefined` have no `toString` and throw. */
  function ValueMatches(v: Value, term: string): Result<bool> {
    if Nullish(v) then Thrown else Done(TextMatches(v, term))
  }

  /** No value before position `i` is nullish or matches. */
  predicate PassesBefore(values: seq<Value>, term: string, i: int)
    requires i <= |values|
  {
    forall j :: 0 <= j < i ==> ValueMatches(values[j], term) == Done(false)
  }

  /** `Object.values(item).some(...)`: stops at the first match, and a throw
      on the way aborts it. */
  function SomeMatches(values: seq<Value>, term: string): (r: Result<bool>)
    ensures r == Done(true) <==>
              exists i :: 0 <= i < |values| && PassesBefore(values, term, i) && ValueMatches(values[i], term) == Done(true)
    ensures r == Thrown <==>
              exists i :: 0 <= i < |values| && PassesBefore(values, term, i) && Nullish(values[i])
    ensures r == Done(false) <==> PassesBefore(values, term, |values|)
    decreases |values|
  {
    if values == [] then Done(false)
    else match ValueMatches(values[0], term)
      case Thrown => Thrown
      case Done(true) => Done(true)
      case Done(false) =>
        var rest := SomeMatches(values[1..], term);
        ShiftPasses(values, term);
        rest
  }

  /** Passing the first value and then `i` more is passing `i + 1`. */
  lemma ShiftPasses(values: seq<Value>, term: string)
    requires values != [] && ValueMatches(values[0], term) == Done(false)
    ensures forall i :: 0 <= i <= |values| - 1 ==>
              (PassesBefore(values[1..], term, i) <==> PassesBefore(values, term, i + 1))
  {
    forall i | 0 <= i <= |values| - 1
      ensures PassesBefore(values[1..], term, i) <==> PassesBefore(values, term, i + 1)
    {
      if PassesBefore(values[1..], term, i) {
        forall j | 0 <= j < i + 1 ensures ValueMatches(values[j], term) == Done(false) {
          if j > 0 { assert values[j] == values[1..][j - 1]; }
        }
      }
      if PassesBefore(values, term, i + 1) {
        forall j | 0 <= j < i ensures ValueMatches(values[1..][j], term) == Done(false) {
          assert values[1..][j] == values[j + 1];
        }
      }
    }
  }

  /** `String(v).toLowerCase()` contains the lower-cased term. */
  predicate TextMatches(v: Value, term: string) {
    Contains(Lower(Stringify(v)), Lower(term))
  }

  lemma {:induction false} SomeMatchesWithoutNulls(values: seq<Value>, term: string)
    requires forall i :: 0 <= i < |values| ==> !Nullish(values[i])
    ensures SomeMatches(values, term) == Done(exists i :: 0 <= i < |values| && TextMatches(values[i], term))
    decreases |values|
  {
    if values != [] {
      SomeMatchesWithoutNulls(values[1..], term);
      if !TextMatches(values[0], term) {
        assert SomeMatches(values, term) == SomeMatches(values[1..], term);
        if exists i :: 0 <= i < |values| && TextMatches(values[i], term) {
          var i :| 0 <= i < |values| && TextMatches(values[i], term);
          assert values[1..][i - 1] == values[i];
        }
      }
    }
  }

  /** An item with no null or undefined field is kept exactly when one of
      its fields, written out and lower-cased, contains the lower-cased term;
      hidden columns and fields no column shows count too. */
  lemma SearchWithoutNulls(item: Item, term: string)
    requires forall i :: 0 <= i < |item| ==> !Nullish(item[i].1)
    ensures SomeMatches(Values(item), term) == Done(exists i :: 0 <= i < |item| && TextMatches(item[i].1, term))
  {
    var vs := Values(item);
    SomeMatchesWithoutNulls(vs, term);
    if exists i :: 0 <= i < |vs| && TextMatches(vs[i], term) {
      var i :| 0 <= i < |vs| && TextMatches(vs[i], term);
      assert vs[i] == item[i].1;
    } else {
      forall i | 0 <= i < |item| ensures !TextMatches(item[i].1, term) {
        assert vs[i] == item[i].1;
      }
    }
  }

  function ItemKeeper(term: string): Item -> Result<bool> {
    item => SomeMatches(Values(item), term)
  }

  /** The `filter` step of `filteredData`. */
  function SearchItems(data: seq<Item>, term: string): Result<seq<Item>> {
    TryFilter(data, ItemKeeper(term))
  }

  /** The search either throws, because some item reaches a null or
      undefined field before a match, or keeps, in order and with their
      multiplicity, exactly the items with a matching field. */
  lemma SearchSpec(data: seq<Item>, term: string)
    ensures SearchItems(data, term).Done? <==> forall i :: 0 <= i < |data| ==> SomeMatches(Values(data[i]), term).Done?
    ensures SearchItems(data, term).Done? ==>
      var kept := SearchItems(data, term).value;
      && Subseq(kept, data)
      && (forall i :: 0 <= i < |kept| ==> SomeMatches(Values(kept[i]), term) == Done(true))
      && (forall i :: 0 <= i < |data| && SomeMatches(Values(data[i]), term) == Done(true) ==> data[i] in kept)
      && (forall x :: multiset(kept)[x] == if SomeMatches(Values(x), term) == Done(true) then multiset(data)[x] else 0)
  {
    if SearchItems(data, term).Done? {
      FilterIsSubseq(data, HoldsOk(ItemKeeper(term)));
      FilterCounts(data, HoldsOk(ItemKeeper(term)));
    }
  }

  /** An empty search over items without null fields keeps every item that
      has at least one field. */
  lemma EmptySearchKeepsFilledItems(data: seq<Item>)
    requires forall i :: 0 <= i < |data| ==> data[i] != [] && forall j :: 0 <= j < |data[i]| ==> !Nullish(data[i][j].1)
    ensures SearchItems(data, "") == Done(data)
  {
    forall i | 0 <= i < |data| ensures SomeMatches(Values(data[i]), "") == Done(true) {
      SearchWithoutNulls(data[i], "");
      ContainsEmpty(Lower(Stringify(data[i][0].1)));
    }
    FilterKeepsAll(data, HoldsOk(ItemKeeper("")));
  }

  // ----- sort -----

  /** `item[field]?.toString().toLowerCase()`: `None` stands for `undefined`. */
  function SortKey(item: Item, field: string): Option<string> {
    var v := Lookup(item, field);
    if Nullish(v) then None else Some(Lower(Stringify(v)))
  }

  /** The comparator of `sortData`. The serial-number column sorts by `id`
      numerically; any other column compares the lower-cased text, and a
      missing value compares equal to everything. Descending is the mirror
      image. */
  function CompareItems(a: Item, b: Item, field: string, dir: Direction): int {
    if field == "sr_no" then
      if dir == Asc then NumericDifference(Lookup(a, "id"), Lookup(b, "id"))
      else NumericDifference(Lookup(b, "id"), Lookup(a, "id"))
    else
      var ka := SortKey(a, field);
      var kb := SortKey(b, field);
      if ka.None? || kb.None? then 0
      else if dir == Asc then
        (if StringLess(ka.value, kb.value) then -1 else if StringLess(kb.value, ka.value) then 1 else 0)
      else
        (if StringLess(kb.value, ka.value) then -1 else if StringLess(ka.value, kb.value) then 1 else 0)
  }

  function ItemOrder(field: string, dir: Direction): (Item, Item) -> int {
    (a, b) => CompareItems(a, b, field, dir)
  }

  /** `sortData`: no field means no sort; otherwise a sorted copy. */
  function SortItems(data: seq<Item>, sortField: Option<string>, dir: Direction): seq<Item> {
    if sortField.None? || sortField.value == "" then data
    else SortBy(data, ItemOrder(sortField.value, dir))
  }

  /** The sort keeps every item, each as often, and with no field keeps the
      order too. */
  lemma SortItemsPermutes(data: seq<Item>, sortField: Option<string>, dir: Direction)
    ensures multiset(SortItems(data, sortField, dir)) == multiset(data)
    ensures sortField.None? ==> SortItems(data, sortField, dir) == data
  {
    if sortField.Some? && sortField.value != "" {
      SortPermutes(data, ItemOrder(sortField.value, dir));
    }
  }

  ghost function NumericIds(): iset<Item> {
    iset item | ToNumber(Lookup(item, "id")).Some?
  }

  lemma IdOrderConsistent(dir: Direction)
    ensures ConsistentOn(ItemOrder("sr_no", dir), NumericIds())
  {
  }

  /** Sorting by the serial-number column orders the items by numeric `id`,
      when every id is a number. */
  lemma SortBySerialUsesId(data: seq<Item>, dir: Direction)
    requires forall i :: 0 <= i < |data| ==> ToNumber(Lookup(data[i], "id")).Some?
    ensures var r := SortItems(data, Some("sr_no"), dir);
      && (forall i :: 0 <= i < |r| ==> ToNumber(Lookup(r[i], "id")).Some?)
      && forall i, j :: 0 <= i < j < |r| ==>
        var x, y := ToNumber(Lookup(r[i], "id")).value, ToNumber(Lookup(r[j], "id")).value;
        if dir == Asc then x <= y else x >= y
  {
    var cmp := ItemOrder("sr_no", dir);
    IdOrderConsistent(dir);
    SortSorts(data, cmp, NumericIds());
    SortPermutes(data, cmp);
    SortedInDom(data, cmp, NumericIds());
    var r := SortBy(data, cmp);
    forall i | 0 <= i < |r| ensures ToNumber(Lookup(r[i], "id")).Some? {
      assert r[i] in NumericIds();
    }
    forall i, j | 0 <= i < j < |r|
      ensures var x, y := ToNumber(Lookup(r[i], "id")).value, ToNumber(Lookup(r[j], "id")).value;
              if dir == Asc then x <= y else x >= y
    {
      assert cmp(r[i], r[j]) <= 0;
    }
  }

  ghost function KeyedBy(field: string): iset<Item> {
    iset item | SortKey(item, field).Some?
  }

  lemma TextOrderConsistent(field: string, dir: Direction)
    requires field != "sr_no"
    ensures ConsistentOn(ItemOrder(field, dir), KeyedBy(field))
  {
    var cmp := ItemOrder(field, dir);
    forall a, b | a in KeyedBy(field) && b in KeyedBy(field)
      ensures cmp(a, b) < 0 <==> cmp(b, a) > 0
    {
      var x, y := SortKey(a, field).value, SortKey(b, field).value;
      if StringLess(x, y) { StringLessAsymmetric(x, y); }
      if StringLess(y, x) { StringLessAsymmetric(y, x); }
    }
    forall a, b, c | a in KeyedBy(field) && b in KeyedBy(field) && c in KeyedBy(field)
                     && cmp(a, b) <= 0 && cmp(b, c) <= 0
      ensures cmp(a, c) <= 0
    {
      var x, y, z := SortKey(a, field).value, SortKey(b, field).value, SortKey(c, field).value;
      TextStep(x, y, z, dir);
    }
  }

  /** "Not after" in lower-cased text order is transitive. */
  lemma TextStep(x: string, y: string, z: string, dir: Direction)
    requires dir == Asc ==> !StringLess(y, x) && !StringLess(z, y)
    requires dir == Desc ==> !StringLess(x, y) && !StringLess(y, z)
    ensures dir == Asc ==> !StringLess(z, x)
    ensures dir == Desc ==> !StringLess(x, z)
  {
    StringLessTotal(x, y);
    StringLessTotal(y, z);
    if dir == Asc && StringLess(z, x) {
      if x != y { StringLessTransitive(z, x, y); }
    }
    if dir == Desc && StringLess(x, z) {
      if x != y { StringLessTransitive(y, x, z); }
    }
  }

  /** Sorting by any other column orders the items by their lower-cased
      text, ascending or descending, when every item has a value there. */
  lemma SortByTextOrders(data: seq<Item>, field: string, dir: Direction)
    requires field != "sr_no" && field != ""
    requires forall i :: 0 <= i < |data| ==> SortKey(data[i], field).Some?
    ensures var r := SortItems(data, Some(field), dir);
      && (forall i :: 0 <= i < |r| ==> SortKey(r[i], field).Some?)
      && forall i, j :: 0 <= i < j < |r| ==>
        var x, y := SortKey(r[i], field).value, SortKey(r[j], field).value;
        if dir == Asc then !StringLess(y, x) else !StringLess(x, y)
  {
    var cmp := ItemOrder(field, dir);
    TextOrderConsistent(field, dir);
    SortSorts(data, cmp, KeyedBy(field));
    SortPermutes(data, cmp);
    SortedInDom(data, cmp, KeyedBy(field));
    SortedTextKeys(SortBy(data, cmp), field, dir);
  }

  lemma SortedTextKeys(r: seq<Item>, field: string, dir: Direction)
    requires field != "sr_no"
    requires Sorted(r, ItemOrder(field, dir))
    requires forall i :: 0 <= i < |r| ==> r[i] in KeyedBy(field)
    ensures forall i :: 0 <= i < |r| ==> SortKey(r[i], field).Some?
    ensures forall i, j :: 0 <= i < j < |r| ==>
      var x, y := SortKey(r[i], field).value, SortKey(r[j], field).value;
      if dir == Asc then !StringLess(y, x) else !StringLess(x, y)
  {
    forall i, j | 0 <= i < j < |r|
      ensures var x, y := SortKey(r[i], field).value, SortKey(r[j], field).value;
              if dir == Asc then !StringLess(y, x) else !StringLess(x, y)
    {
      var x, y := SortKey(r[i], field).value, SortKey(r[j], field).value;
      assert CompareItems(r[i], r[j], field, dir) <= 0;
      if StringLess(x, y) { StringLessAsymmetric(x, y); }
      if StringLess(y, x) { StringLessAsymmetric(y, x); }
    }
  }

  /** `filteredData`: search, then sort. */
  function FilteredData(data: seq<Item>, term: string, sortField: Option<string>, dir: Direction): Result<seq<Item>> {
    match SearchItems(data, term)
    case Thrown => Thrown
    case Done(kept) => Done(SortItems(kept, sortField, dir))
  }

  // ----- pages -----

  /** `{ ...item, [key]: v }`: an existing field keeps its place, a new one
      goes last. */
  function SetField(item: Item, key: string, v: Value): (out: Item)
    ensures Lookup(out, key) == v
    ensures forall k :: k != key ==> Lookup(out, k) == Lookup(item, k)
    decreases |item|
  {
    if item == [] then [(key, v)]
    else if item[0].0 == key then [(key, v)] + SetField(item[1..], key, v)
    else [item[0]] + SetField(item[1..], key, v)
  }

  /** `Math.ceil(n / pageSize)` */
  function PageCount(n: nat): (count: nat)
    ensures count * PageSize >= n
    ensures n > 0 ==> (count - 1) * PageSize < n
  {
    (n + PageSize - 1) / PageSize
  }

  /** `paginatedData`: one page of the filtered items, each numbered by its
      place in the whole filtered list. */
  function PageItems(filtered: seq<Item>, currentPage: int): seq<Item> {
    var startIndex := (currentPage - 1) * PageSize;
    var page := Slice(filtered, startIndex, startIndex + PageSize);
    seq(|page|, idx requires 0 <= idx < |page| => SetField(page[idx], "sr_no", Num(startIndex + idx + 1)))
  }

  /** A page holds at most ten items; item `idx` of page `p` is item
      `(p - 1) * 10 + idx` of the list with only `sr_no` changed, to its
      1-based position in the whole list, so numbering runs on across pages. */
  lemma PageItemsSpec(filtered: seq<Item>, currentPage: int)
    requires currentPage >= 1
    ensures var page := PageItems(filtered, currentPage);
      var start := (currentPage - 1) * PageSize;
      && |page| <= PageSize
      && (start < |filtered| ==> |page| == (if |filtered| - start < PageSize then |filtered| - start else PageSize))
      && forall idx :: 0 <= idx < |page| ==>
           && start + idx < |filtered|
           && Lookup(page[idx], "sr_no") == Num(start + idx + 1)
           && forall k :: k != "sr_no" ==> Lookup(page[idx], k) == Lookup(filtered[start + idx], k)
  {
  }

  // ----- the page -----

  /** The tab, search, sort, paging and visibility state. The three lists
      are what the last fetch stored. */
  class RogueView {
    var urlData: seq<Item>
    var domainData: seq<Item>
    var mailData: seq<Item>
    var activeTab: Tab
    var searchTerm: string
    var visibleColumns: map<string, bool>
    var currentPage: int
    var sortField: Option<string>
    var sortDirection: Direction

    /** The state once the lists have loaded and the visibility effect has
        run for the first tab. */
    constructor (urlData: seq<Item>, domainData: seq<Item>, mailData: seq<Item>)
      ensures this.urlData == urlData && this.domainData == domainData && this.mailData == mailData
      ensures activeTab == Url && searchTerm == "" && currentPage == 1
      ensures sortField == None && sortDirection == Asc
      ensures visibleColumns.Keys == ColumnKeys(Headers(Url)) && forall k :: k in visibleColumns ==> visibleColumns[k]
    {
      var columns := InitializeVisibleColumns(Headers(Url));
      this.urlData := urlData;
      this.domainData := domainData;
      this.mailData := mailData;
      activeTab := Url;
      searchTerm := "";
      currentPage := 1;
      sortField := None;
      sortDirection := Asc;
      visibleColumns := columns;
    }

    function TabItems(): seq<Item>
      reads this
    {
      match activeTab
      case Url => urlData
      case Domain => domainData
      case Mail => mailData
    }

    function Filtered(): Result<seq<Item>>
      reads this
    {
      FilteredData(TabItems(), searchTerm, sortField, sortDirection)
    }

    /** `pageCount`; a search that throws leaves nothing rendered. */
    function Pages(): Result<nat>
      reads this
    {
      match Filtered()
      case Thrown => Thrown
      case Done(items) => Done(PageCount(|items|))
    }

    function Paginated(): Result<seq<Item>>
      reads this
    {
      match Filtered()
      case Thrown => Thrown
      case Done(items) => Done(PageItems(items, currentPage))
    }

    /** A tab button: always back to page 1; the visibility map is rebuilt
        only when the tab actually changes. */
    method SwitchTab(tab: Tab)
      modifies this
      ensures activeTab == tab && currentPage == 1
      ensures tab != old(activeTab) ==>
                visibleColumns.Keys == ColumnKeys(Headers(tab)) && forall k :: k in visibleColumns ==> visibleColumns[k]
      ensures tab == old(activeTab) ==> visibleColumns == old(visibleColumns)
      ensures urlData == old(urlData) && domainData == old(domainData) && mailData == old(mailData)
      ensures searchTerm == old(searchTerm) && sortField == old(sortField) && sortDirection == old(sortDirection)
    {
      var changed := tab != activeTab;
      activeTab := tab;
      currentPage := 1;
      if changed {
        visibleColumns := InitializeVisibleColumns(Headers(tab));
      }
    }

    /** A column checkbox: flips the entry under the header's key. */
    method ToggleColumnVisibility(header: string)
      modifies this
      ensures visibleColumns == old(visibleColumns)[ColumnKey(header) := !(ColumnKey(header) in old(visibleColumns) && old(visibleColumns)[ColumnKey(header)])]
      ensures urlData == old(urlData) && domainData == old(domainData) && mailData == old(mailData)
      ensures activeTab == old(activeTab) && searchTerm == old(searchTerm) && currentPage == old(currentPage)
      ensures sortField == old(sortField) && sortDirection == old(sortDirection)
    {
      var key := ColumnKey(header);
      var shown := key in visibleColumns && visibleColumns[key];
      visibleColumns := visibleColumns[key := !shown];
    }

    /** A click on the header in column `index` of the active tab. */
    method HeaderClick(index: int)
      requires 0 <= index < |Headers(activeTab)|
      modifies this
      ensures activeTab == old(activeTab)
      ensures sortField == Some(DataKeys(activeTab)[index])
      ensures sortDirection == Desc <==> old(sortField) == Some(DataKeys(activeTab)[index]) && old(sortDirection) == Asc
      ensures urlData == old(urlData) && domainData == old(domainData) && mailData == old(mailData)
      ensures searchTerm == old(searchTerm) && currentPage == old(currentPage)
      ensures visibleColumns == old(visibleColumns)
    {
      var field := DataKeys(activeTab)[index];
      sortDirection := if sortField == Some(field) && sortDirection == Asc then Desc else Asc;
      sortField := Some(field);
    }

    method SetSearchTerm(term: string)
      modifies this
      ensures searchTerm == term
      ensures urlData == old(urlData) && domainData == old(domainData) && mailData == old(mailData)
      ensures activeTab == old(activeTab) && currentPage == old(currentPage) && visibleColumns == old(visibleColumns)
      ensures sortField == old(sortField) && sortDirection == old(sortDirection)
    {
      searchTerm := term;
    }

    /** A numbered page button: `Math.max(1, Math.min(page, pageCount))`.
        The buttons exist only on a page that rendered. */
    method GotoPage(page: int)
      requires Pages().Done?
      modifies this
      ensures currentPage == (if page < old(Pages()).value then (if page < 1 then 1 else page)
                              else if old(Pages()).value < 1 then 1 else old(Pages()).value)
      ensures currentPage >= 1
      ensures old(Pages()).value >= 1 ==> currentPage <= old(Pages()).value
      ensures urlData == old(urlData) && domainData == old(domainData) && mailData == old(mailData)
      ensures activeTab == old(activeTab) && searchTerm == old(searchTerm) && visibleColumns == old(visibleColumns)
      ensures sortField == old(sortField) && sortDirection == old(sortDirection)
    {
      var pageCount := Pages().value;
      var p := if page < pageCount then page else pageCount;
      currentPage := if 1 < p then p else 1;
    }

    /** The "previous" arrow: moves only from beyond page 1. */
    method PreviousPage()
      modifies this
      ensures currentPage == if old(currentPage) > 1 then old(currentPage) - 1 else old(currentPage)
      ensures urlData == old(urlData) && domainData == old(domainData) && mailData == old(mailData)
      ensures activeTab == old(activeTab) && searchTerm == old(searchTerm) && visibleColumns == old(visibleColumns)
      ensures sortField == old(sortField) && sortDirection == old(sortDirection)
    {
      if currentPage > 1 {
        currentPage := currentPage - 1;
      }
    }

    /** The "next" arrow: moves only while before the last page. */
    method NextPage()
      requires Pages().Done?
      modifies this
      ensures currentPage == if old(currentPage) < old(Pages()).value then old(currentPage) + 1 else old(currentPage)
      ensures urlData == old(urlData) && domainData == old(domainData) && mailData == old(mailData)
      ensures activeTab == old(activeTab) && searchTerm == old(searchTerm) && visibleColumns == old(visibleColumns)
      ensures sortField == old(sortField) && sortDirection == old(sortDirection)
    {
      if currentPage < Pages().value {
        currentPage := currentPage + 1;
      }
    }
  }
}
