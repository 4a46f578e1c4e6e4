/** The plugin-management page: the license list split into tabs by whether
    a license is allocated and whether a plugin is installed on it, each tab
    numbered from 1. */
module Plugin {
  import opened JsValues
  import opened Seqs

  /** `!item.plugins || item.plugins.length === 0` */
  predicate NoPlugins(item: Record) {
    var plugins := Get(item, "plugins");
    !Truthy(plugins) || StrictEquals(Length(plugins), Num(0))
  }

  /** "Available License": unallocated and without plugins. */
  predicate Available(item: Record) {
    !Truthy(Get(item, "allocated_to")) && NoPlugins(item)
  }

  /** "Plugin Installed": `item.allocated_to && item.plugins &&
      item.plugins.length > 0 && item.plugins[0].plugin_id`. Reading
      `plugin_id` of a null or missing first plugin throws. */
  function Installed(item: Record): Result<bool> {
    var plugins := Get(item, "plugins");
    if !Truthy(Get(item, "allocated_to")) || !Truthy(plugins) then Done(false)
    else
      var n := ToNumber(Length(plugins));
      if !(n.Some? && n.value > 0) then Done(false)
      else if Nullish(First(plugins)) then Thrown
      else Done(Truthy(Prop(First(plugins), "plugin_id")))
  }

  /** "Plugin Not Installed": allocated, but without plugins. */
  predicate NotInstalled(item: Record) {
    Truthy(Get(item, "allocated_to")) && NoPlugins(item)
  }

  /** No license can appear in two of the three selecting tabs. */
  lemma TabsDisjoint(item: Record)
    ensures !(Available(item) && NotInstalled(item))
    ensures !(Available(item) && Installed(item) == Done(true))
    ensures !(NotInstalled(item) && Installed(item) == Done(true))
  {
  }

  /** An allocated license whose plugins list is an array lands in exactly
      one of "Plugin Installed" (when its first plugin has an id) and "Plugin
      Not Installed" (when the list is empty). */
  lemma AllocatedArraySplit(item: Record, plugins: seq<Value>)
    requires Truthy(Get(item, "allocated_to")) && Get(item, "plugins") == Arr(plugins)
    requires plugins != [] ==> !Nullish(plugins[0])
    ensures Installed(item).Done?
    ensures NotInstalled(item) <==> plugins == []
    ensures Installed(item) == Done(true) <==> plugins != [] && Truthy(Prop(plugins[0], "plugin_id"))
  {
  }

  /** The row of the "Available License" tab. */
  function AvailableRow(item: Record, index: nat): Record {
    map["sr_no" := Num(index + 1),
        "license_id" := Get(item, "license_id"),
        "validity_from" := Get(item, "valid_from"),
        "validity_till" := Get(item, "valid_till"),
        "status" := Str(if StrictEquals(Get(item, "status"), Str("0")) then "Inactive" else "Active"),
        "is_reserved" := Get(item, "is_reserved"),
        "issue" := Get(item, "status")]
  }

  /** The row shared by the other three tabs. */
  function LicenseRow(item: Record, index: nat): Record {
    map["sr_no" := Num(index + 1),
        "license_id" := Get(item, "license_id"),
        "email" := Get(item, "allocated_to"),
        "validity_from" := Get(item, "valid_from"),
        "validity_till" := Get(item, "valid_till"),
        "issue" := Get(item, "status")]
  }

  function AvailableRows(items: seq<Record>): (rows: seq<Record>)
    ensures |rows| == |items|
    ensures forall i :: 0 <= i < |items| ==> rows[i] == AvailableRow(items[i], i)
  {
    seq(|items|, i requires 0 <= i < |items| => AvailableRow(items[i], i))
  }

  function LicenseRows(items: seq<Record>): (rows: seq<Record>)
    ensures |rows| == |items|
    ensures forall i :: 0 <= i < |items| ==> rows[i] == LicenseRow(items[i], i)
  {
    seq(|items|, i requires 0 <= i < |items| => LicenseRow(items[i], i))
  }

  function AvailableTab(licenses: seq<Record>): seq<Record> {
    AvailableRows(Filter(licenses, item => Available(item)))
  }

  /** A throw in the filter leaves the page without its tabs. */
  function InstalledTab(licenses: seq<Record>): Result<seq<Record>> {
    match TryFilter(licenses, Installed)
    case Thrown => Thrown
    case Done(kept) => Done(LicenseRows(kept))
  }

  function NotInstalledTab(licenses: seq<Record>): seq<Record> {
    LicenseRows(Filter(licenses, item => NotInstalled(item)))
  }

  function ReportTab(licenses: seq<Record>): seq<Record> {
    LicenseRows(licenses)
  }

  /** Every tab numbers its rows 1..n, and every row of a selecting tab
      comes from a license that satisfies that tab's rule. */
  lemma TabsNumbered(licenses: seq<Record>)
    ensures var rows := AvailableTab(licenses);
      forall i :: 0 <= i < |rows| ==> rows[i]["sr_no"] == Num(i + 1)
    ensures var rows := NotInstalledTab(licenses);
      forall i :: 0 <= i < |rows| ==> rows[i]["sr_no"] == Num(i + 1)
    ensures InstalledTab(licenses).Done? ==> var rows := InstalledTab(licenses).value;
      forall i :: 0 <= i < |rows| ==> rows[i]["sr_no"] == Num(i + 1)
    ensures var rows := ReportTab(licenses);
      forall i :: 0 <= i < |rows| ==> rows[i]["sr_no"] == Num(i + 1)
  {
  }

  /** "Available License" shows, in input order and with their
      multiplicity, exactly the available licenses. */
  lemma AvailableTabSelects(licenses: seq<Record>)
    ensures var kept := Filter(licenses, item => Available(item));
      && AvailableTab(licenses) == AvailableRows(kept)
      && Subseq(kept, licenses)
      && (forall i :: 0 <= i < |kept| ==> Available(kept[i]))
      && (forall i :: 0 <= i < |licenses| && Available(licenses[i]) ==> licenses[i] in kept)
      && (forall x :: multiset(kept)[x] == if Available(x) then multiset(licenses)[x] else 0)
  {
    FilterIsSubseq(licenses, item => Available(item));
    FilterCounts(licenses, item => Available(item));
  }

  /** "Plugin Not Installed" shows, in input order and with their
      multiplicity, exactly the allocated licenses without plugins. */
  lemma NotInstalledTabSelects(licenses: seq<Record>)
    ensures var kept := Filter(licenses, item => NotInstalled(item));
      && NotInstalledTab(licenses) == LicenseRows(kept)
      && Subseq(kept, licenses)
      && (forall i :: 0 <= i < |kept| ==> NotInstalled(kept[i]))
      && (forall i :: 0 <= i < |licenses| && NotInstalled(licenses[i]) ==> licenses[i] in kept)
      && (forall x :: multiset(kept)[x] == if NotInstalled(x) then multiset(licenses)[x] else 0)
  {
    FilterIsSubseq(licenses, item => NotInstalled(item));
    FilterCounts(licenses, item => NotInstalled(item));
  }

  /** "Plugin Installed" fails iff some license's check throws; otherwise it
      shows, in input order and with their multiplicity, exactly the
      licenses whose check holds. */
  lemma InstalledTabSelects(licenses: seq<Record>)
    ensures InstalledTab(licenses).Done? <==> forall i :: 0 <= i < |licenses| ==> Installed(licenses[i]).Done?
    ensures InstalledTab(licenses).Done? ==>
      var kept := Filter(licenses, HoldsOk(Installed));
      && InstalledTab(licenses).value == LicenseRows(kept)
      && Subseq(kept, licenses)
      && (forall i :: 0 <= i < |kept| ==> Installed(kept[i]) == Done(true))
      && (forall i :: 0 <= i < |licenses| && Installed(licenses[i]) == Done(true) ==> licenses[i] in kept)
      && (forall x :: multiset(kept)[x] == if Installed(x) == Done(true) then multiset(licenses)[x] else 0)
  {
    TryFilterKeeps(licenses, Installed);
  }

  /** The report lists every license once, in input order; an available
      row is "Inactive" exactly when its status is the string "0". */
  lemma ReportAndStatus(licenses: seq<Record>, item: Record, index: nat)
    ensures |ReportTab(licenses)| == |licenses|
    ensures forall i :: 0 <= i < |licenses| ==>
              ReportTab(licenses)[i]["license_id"] == Get(licenses[i], "license_id")
    ensures AvailableRow(item, index)["status"] == Str("Inactive") <==> Get(item, "status") == Str("0")
  {
  }
}
