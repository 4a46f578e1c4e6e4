/** The staff dashboard: four yearly series (mails, sandbox tests, CDR
    completions, impacted mails), each a total and twelve monthly counts
    bucketed from the server's `"YYYY-MM"` chart rows. */
module StaffDashboard {
  import opened JsValues
  import opened Seqs

  /** One row of a series' `chart_data`. */
  datatype ChartItem = ChartItem(month: string, count: Value)

  /** `{ total_count, chart_data }` */
  datatype Series = Series(totalCount: Value, chartData: seq<ChartItem>)

  /** The object stored under a year key. */
  datatype YearData = YearData(totalMail: Series, sandboxData: Series, cdrCompleted: Series, impactedFound: Series)

  /** `{ count, chartData }` as the cards receive it. */
  datatype SeriesView = SeriesView(count: Value, chart: seq<Value>)

  datatype DashboardData = DashboardData(totalMails: SeriesView, sandboxTesting: SeriesView,
                                         cdrCompleted: SeriesView, impactionsFound: SeriesView)

  /** What ends up in `error`: the message of the error the fetch threw. */
  datatype FetchError =
    | ServerResponse(status: int)   // `Server response ${response.status}`
    | Rejected(message: string)     // the request itself threw
    | NoYear                        // the TypeError of reading `total_mail` of `undefined`

  function ErrorMessage(e: FetchError): Option<string> {
    match e
    case ServerResponse(status) => Some("Server response " + NumberToString(status))
    case Rejected(message) => Some(message)
    case NoYear => None // the engine's own TypeError text
  }

  /** `parseInt(item.month.split("-")[1])`; `None` is NaN, which is also
      what `parseInt(undefined)` gives when there is no "-". */
  function MonthNumber(item: ChartItem): Option<int> {
    var parts := Split(item.month, '-');
    if |parts| >= 2 then ParseInt(parts[1]) else None
  }

  /** The index `items.find(x => key(x) === m)` stops at. */
  function FirstWithKey<T>(items: seq<T>, key: T -> Option<int>, m: int): (r: Option<nat>)
    ensures r.Some? ==> r.value < |items| && key(items[r.value]) == Some(m)
    ensures r.Some? ==> forall k :: 0 <= k < r.value ==> key(items[k]) != Some(m)
    ensures r.None? ==> forall k :: 0 <= k < |items| ==> key(items[k]) != Some(m)
  {
    if items == [] then None
    else if key(items[0]) == Some(m) then Some(0)
    else match FirstWithKey(items[1..], key, m)
      case None => None
      case Some(k) => Some(k + 1)
  }

  /** The index `chart_data.find(...)` stops at for month `m`. */
  function FirstForMonth(items: seq<ChartItem>, m: int): Option<nat> {
    FirstWithKey(items, MonthNumber, m)
  }

  /** `found ? found.count : 0` for month `idx + 1`. */
  function Bucket(items: seq<ChartItem>, idx: int): Value {
    match FirstForMonth(items, idx + 1)
    case Some(k) => items[k].count
    case None => Num(0)
  }

  /** `Array(12).fill(0).map((_, idx) => ...)` */
  function ChartData(items: seq<ChartItem>): (chart: seq<Value>)
    ensures |chart| == 12
  {
    seq(12, idx requires 0 <= idx < 12 => Bucket(items, idx))
  }

  function View(s: Series): SeriesView {
    SeriesView(s.totalCount, ChartData(s.chartData))
  }

  /** `processedData` built from the year's object. */
  function ProcessedData(y: YearData): (d: DashboardData)
    ensures d.totalMails.count == y.totalMail.totalCount
    ensures d.sandboxTesting.count == y.sandboxData.totalCount
    ensures d.cdrCompleted.count == y.cdrCompleted.totalCount
    ensures d.impactionsFound.count == y.impactedFound.totalCount
    ensures |d.totalMails.chart| == |d.sandboxTesting.chart| == 12
    ensures |d.cdrCompleted.chart| == |d.impactionsFound.chart| == 12
  {
    DashboardData(View(y.totalMail), View(y.sandboxData), View(y.cdrCompleted), View(y.impactedFound))
  }

  /** Month `idx + 1` shows the count of the first row of that month, and 0
      when there is none. */
  lemma BucketIsFirstMatch(items: seq<ChartItem>, idx: int, j: nat)
    requires 0 <= idx < 12
    ensures j < |items| && MonthNumber(items[j]) == Some(idx + 1)
            && (forall k :: 0 <= k < j ==> MonthNumber(items[k]) != Some(idx + 1))
            ==> ChartData(items)[idx] == items[j].count
    ensures (forall k :: 0 <= k < |items| ==> MonthNumber(items[k]) != Some(idx + 1))
            ==> ChartData(items)[idx] == Num(0)
  {
    var r := FirstForMonth(items, idx + 1);
    if j < |items| && MonthNumber(items[j]) == Some(idx + 1)
       && (forall k :: 0 <= k < j ==> MonthNumber(items[k]) != Some(idx + 1)) {
      assert r.Some? && r.value == j;
    }
  }

  predicate InYear(item: ChartItem) {
    match MonthNumber(item)
    case Some(m) => 1 <= m <= 12
    case None => false
  }

  /** Dropping rows whose month number is not in 1..12 (or is NaN) leaves
      every bucket as it was: such rows never show. */
  lemma OutOfYearRowsIgnored(items: seq<ChartItem>)
    ensures ChartData(Filter(items, InYear)) == ChartData(items)
  {
    var kept := Filter(items, InYear);
    forall idx | 0 <= idx < 12
      ensures ChartData(kept)[idx] == ChartData(items)[idx]
    {
      BucketIgnoresOutOfYear(items, idx);
    }
  }

  lemma BucketIgnoresOutOfYear(items: seq<ChartItem>, idx: int)
    requires 0 <= idx < 12
    ensures Bucket(Filter(items, InYear), idx) == Bucket(items, idx)
  {
    var kept := Filter(items, InYear);
    FirstIgnoresOutOfYear(items, idx + 1);
    var f := FirstForMonth(kept, idx + 1);
    var g := FirstForMonth(items, idx + 1);
    if f.Some? {
      assert Bucket(kept, idx) == kept[f.value].count;
      assert Bucket(items, idx) == items[g.value].count;
    }
  }

  lemma FirstIgnoresOutOfYear(items: seq<ChartItem>, m: int)
    requires 1 <= m <= 12
    ensures var f := FirstForMonth(Filter(items, InYear), m);
            var g := FirstForMonth(items, m);
            f.Some? == g.Some? && (f.Some? ==> Filter(items, InYear)[f.value] == items[g.value])
  {
    forall x | MonthNumber(x) == Some(m) ensures InYear(x) { }
    FirstIgnoresDropped(items, MonthNumber, InYear, m);
  }

  /** Dropping elements whose key is not `m` does not change which element
      `find` returns for `m`. */
  lemma {:induction false} FirstIgnoresDropped<T>(items: seq<T>, key: T -> Option<int>, keep: T -> bool, m: int)
    requires forall x :: key(x) == Some(m) ==> keep(x)
    ensures var f := FirstWithKey(Filter(items, keep), key, m);
            var g := FirstWithKey(items, key, m);
            f.Some? == g.Some? && (f.Some? ==> Filter(items, keep)[f.value] == items[g.value])
  {
    if items != [] {
      FirstIgnoresDropped(items[1..], key, keep, m);
      var rest := Filter(items[1..], keep);
      if keep(items[0]) {
        var kept := [items[0]] + rest;
        assert Filter(items, keep) == kept;
        assert kept[1..] == rest;
      } else {
        assert Filter(items, keep) == rest;
      }
    }
  }

  /** Year keys are array indices, so whatever order the server writes them
      in, the dashboard shows the oldest of two years. */
  lemma OldestYearShown(older: nat, newer: nat, olderData: YearData, newerData: YearData)
    requires older < newer < 0xFFFF_FFFF
    ensures FirstOwnKey([(NatToDecimal(newer), newerData), (NatToDecimal(older), olderData)]) == Some(1)
    ensures FirstOwnKey([(NatToDecimal(older), olderData), (NatToDecimal(newer), newerData)]) == Some(0)
  {
    ArrayIndexOfDecimal(older);
    ArrayIndexOfDecimal(newer);
    var a := [(NatToDecimal(newer), newerData), (NatToDecimal(older), olderData)];
    assert ArrayIndex(a[0].0) == Some(newer) && ArrayIndex(a[1].0) == Some(older);
    var b := [(NatToDecimal(older), olderData), (NatToDecimal(newer), newerData)];
    assert ArrayIndex(b[0].0) == Some(older) && ArrayIndex(b[1].0) == Some(newer);
  }

  /** The state the dashboard's fetch effect manages. */
  class DashboardView {
    var dashboardData: Option<DashboardData>
    var error: Option<FetchError>
    var isLoading: bool

    constructor ()
      ensures dashboardData.None? && error.None? && isLoading
    {
      dashboardData := None;
      error := None;
      isLoading := true;
    }

    /** The effect: the first key `Object.keys` gives for an ok body selects
        the year, whose four series are processed; a non-ok status (carried
        in `status`) or a throw ends in `error`; loading always ends. The
        body's entries are listed in the order of the text. */
    method FetchData(response: Response<seq<(string, YearData)>>, status: int)
      modifies this
      ensures response.Ok? && response.payload != [] ==>
                && dashboardData == Some(ProcessedData(response.payload[FirstOwnKey(response.payload).value].1))
                && error == old(error)
      ensures response.Ok? && response.payload == [] ==>
                dashboardData == old(dashboardData) && error == Some(NoYear)
      ensures response.NotOk? ==> dashboardData == old(dashboardData) && error == Some(ServerResponse(status))
      ensures response.Threw? ==>
                dashboardData == old(dashboardData) && error == Some(Rejected(response.message))
      ensures !isLoading
    {
      isLoading := true;
      match response {
        case Ok(data) =>
          if data == [] {
            error := Some(NoYear);
          } else {
            dashboardData := Some(ProcessedData(data[FirstOwnKey(data).value].1));
          }
        case NotOk =>
          error := Some(ServerResponse(status));
        case Threw(message) =>
          error := Some(Rejected(message));
      }
      isLoading := false;
    }
  }
}
