/** The super-admin dashboard: user and license totals, each shown with a
    twelve-point chart series made of the total plus a fixed offset per
    month, and the month labelling the bar chart uses. */
module SuperAdminDashboard {
  import opened JsValues

  /** What the dashboard adds to the user total, month by month. */
  const UserOffsets: seq<nat> := [496, 1000, 2000, 1500, 3000, 2500, 2100, 2600, 2300, 2200, 2100, 100]

  /** What the dashboard adds to the license total, month by month. */
  const LicenseOffsets: seq<nat> := [0, 200, 100, 400, 300, 600, 700, 800, 400, 500, 200, 100]

  const Months: seq<string> := ["Jan", "Feb", "Mar", "Apr", "May", "Jun", "Jul", "Aug", "Sep", "Oct", "Nov", "Dec"]

  const ApiError := "Api error: Data not available."

  /** `{ count, chartData }` */
  datatype CardData = CardData(count: nat, chartData: seq<int>)

  /** One series: the total plus each month's offset. */
  function OffsetSeries(count: nat, offsets: seq<nat>): (chart: seq<int>)
    requires |offsets| == 12
    ensures |chart| == 12
    ensures forall i :: 0 <= i < 12 ==> chart[i] >= count && chart[i] - count == offsets[i]
  {
    seq(12, i requires 0 <= i < 12 => count + offsets[i])
  }

  /** `userChartData` for a list of `users`. */
  function UserChartData(users: seq<Value>): (chart: seq<int>)
    ensures |chart| == 12
    ensures forall i :: 0 <= i < 12 ==> chart[i] >= |users|
    ensures chart[0] == |users| + 496 && chart[11] == |users| + 100
  {
    OffsetSeries(|users|, UserOffsets)
  }

  /** `licenseChartData` for a list of `licenses`; January is the total itself. */
  function LicenseChartData(licenses: seq<Value>): (chart: seq<int>)
    ensures |chart| == 12
    ensures forall i :: 0 <= i < 12 ==> chart[i] >= |licenses|
    ensures chart[0] == |licenses| && chart[11] == |licenses| + 100
  {
    OffsetSeries(|licenses|, LicenseOffsets)
  }

  /** `{ month: months[index], value }`; past the twelfth entry `months[index]`
      is `undefined`. */
  datatype ChartPoint = ChartPoint(month: Value, value: int)

  function MonthLabel(index: nat): Value {
    if index < |Months| then Str(Months[index]) else Undefined
  }

  /** `transformChartData(data)` */
  function TransformChartData(data: seq<int>): (points: seq<ChartPoint>)
    ensures |points| == |data|
    ensures forall i :: 0 <= i < |data| ==> points[i].value == data[i]
    ensures forall i :: 0 <= i < |data| && i < 12 ==> points[i].month == Str(Months[i])
    ensures forall i :: 12 <= i < |data| ==> points[i].month == Undefined
  {
    seq(|data|, i requires 0 <= i < |data| => ChartPoint(MonthLabel(i), data[i]))
  }

  function PointValues(points: seq<ChartPoint>): (values: seq<int>)
    ensures |values| == |points|
  {
    seq(|points|, i requires 0 <= i < |points| => points[i].value)
  }

  /** Reading the values back gives the series; a twelve-point series is
      labelled Jan to Dec. */
  lemma TransformRoundTrip(data: seq<int>)
    ensures PointValues(TransformChartData(data)) == data
    ensures |data| == 12 ==>
              (TransformChartData(data)[0].month == Str("Jan") && TransformChartData(data)[11].month == Str("Dec"))
  {
    assert Months[0] == "Jan" && Months[11] == "Dec";
  }

  class DashboardView {
    var userData: CardData
    var licenseData: CardData
    var loading: bool
    var error: Option<string>

    constructor ()
      ensures userData == CardData(0, []) && licenseData == CardData(0, [])
      ensures loading && error.None?
    {
      userData := CardData(0, []);
      licenseData := CardData(0, []);
      loading := true;
      error := None;
    }

    /** The effect, given what the two requests of `Promise.all` came to.
        A rejected request goes straight to the catch. If both are ok both
        cards are filled; otherwise the error is set and reading
        `users.length` of `undefined` throws into the catch, so neither card
        changes. Every path ends with `loading` false. */
    method FetchData(userResponse: Response<seq<Value>>, licenseResponse: Response<seq<Value>>)
      modifies this
      ensures userResponse.Ok? && licenseResponse.Ok? ==>
                && userData == CardData(|userResponse.payload|, UserChartData(userResponse.payload))
                && licenseData == CardData(|licenseResponse.payload|, LicenseChartData(licenseResponse.payload))
                && error == old(error)
      ensures !(userResponse.Ok? && licenseResponse.Ok?) ==>
                userData == old(userData) && licenseData == old(licenseData)
      ensures !userResponse.Threw? && !licenseResponse.Threw? && !(userResponse.Ok? && licenseResponse.Ok?) ==>
                error == Some(ApiError)
      ensures userResponse.Threw? || licenseResponse.Threw? ==> error == old(error)
      ensures !loading
    {
      loading := true;
      if userResponse.Threw? || licenseResponse.Threw? {
        // Promise.all rejected: the catch
        loading := false;
        return;
      }
      if userResponse.Ok? && licenseResponse.Ok? {
        var users := userResponse.payload;
        var licenses := licenseResponse.payload;
        userData := CardData(|users|, UserChartData(users));
        licenseData := CardData(|licenses|, LicenseChartData(licenses));
        loading := false;
      } else {
        error := Some(ApiError);
        // `users` is undefined: `users.length` throws into the catch
        loading := false;
      }
    }
  }
}
