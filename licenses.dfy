/** The license list of the super-admin: licenses as the server sends them,
    with four display fields derived, and the reservation toggle for
    licenses that are not allocated to anyone. */
module Licenses {
  import opened JsValues
  import opened Records

  /** `license?.plugins[0]?.plugin_id || "N/A"`: a missing or null `plugins`
      cannot be indexed and throws. */
  function PluginId(license: Record): (id: Result<Value>)
    ensures id == Thrown <==> Nullish(Get(license, "plugins"))
    ensures id.Done? && !Truthy(Prop(First(Get(license, "plugins")), "plugin_id")) ==> id.value == Str("N/A")
    ensures id.Done? && Truthy(Prop(First(Get(license, "plugins")), "plugin_id")) ==>
              id.value == Prop(First(Get(license, "plugins")), "plugin_id")
  {
    var plugins := Get(license, "plugins");
    if Nullish(plugins) then Thrown
    else Done(Or(Prop(First(plugins), "plugin_id"), Str("N/A")))
  }

  function StatusText(license: Record): string {
    if StrictEquals(Get(license, "status"), Str("1")) then "Active" else "Inactive"
  }

  /** One license with its derived fields; the original fields stay. */
  function ProcessLicense(license: Record): (out: Result<Record>)
    ensures out.Done? <==> !Nullish(Get(license, "plugins"))
    ensures out.Done? ==>
      var r := out.value;
      && r.Keys == license.Keys + {"plugin_id", "allocated_to", "statusText", "is_reserved"}
      && (forall k :: k !in {"plugin_id", "allocated_to", "statusText", "is_reserved"} ==> Get(r, k) == Get(license, k))
      && Get(r, "plugin_id") == PluginId(license).value
      && Get(r, "allocated_to") == (if Truthy(Get(license, "allocated_to")) then Get(license, "allocated_to") else Str("N/A"))
      && Get(r, "statusText") == Str(if Get(license, "status") == Str("1") then "Active" else "Inactive")
      && Get(r, "is_reserved") == (if Truthy(Get(license, "is_reserved")) then Get(license, "is_reserved") else Bool(false))
  {
    match PluginId(license)
    case Thrown => Thrown
    case Done(pluginId) =>
      Done(license["plugin_id" := pluginId]
                  ["allocated_to" := Or(Get(license, "allocated_to"), Str("N/A"))]
                  ["statusText" := Str(StatusText(license))]
                  ["is_reserved" := Or(Get(license, "is_reserved"), Bool(false))])
  }

  /** `processLicenses`: the first license without `plugins` makes the whole
      map throw; otherwise every license is processed in place. */
  function ProcessLicenses(licenses: seq<Record>): (out: Result<seq<Record>>)
    ensures out.Done? <==> forall i :: 0 <= i < |licenses| ==> !Nullish(Get(licenses[i], "plugins"))
    ensures out.Done? ==>
      && |out.value| == |licenses|
      && forall i :: 0 <= i < |licenses| ==> out.value[i] == ProcessLicense(licenses[i]).value
  {
    if licenses == [] then Done([])
    else match ProcessLicense(licenses[0])
      case Thrown => Thrown
      case Done(first) =>
        match ProcessLicenses(licenses[1..])
        case Thrown => Thrown
        case Done(rest) => Done([first] + rest)
  }

  /** After processing, every license shows an owner and a boolean-ish
      reservation, and processing twice changes nothing more. */
  lemma {:induction false} ProcessLicensesIdempotent(licenses: seq<Record>)
    requires ProcessLicenses(licenses).Done?
    ensures var once := ProcessLicenses(licenses).value;
      && (forall i :: 0 <= i < |once| ==> Truthy(Get(once[i], "allocated_to")))
      && ProcessLicenses(once) == Done(once)
  {
    var once := ProcessLicenses(licenses).value;
    forall i | 0 <= i < |once| ensures ProcessLicense(once[i]) == Done(once[i]) {
      ProcessLicenseIdempotent(licenses[i]);
    }
    ProcessedFixed(once);
  }

  lemma ProcessLicenseIdempotent(license: Record)
    requires ProcessLicense(license).Done?
    ensures ProcessLicense(ProcessLicense(license).value) == Done(ProcessLicense(license).value)
  {
    var r := ProcessLicense(license).value;
    assert Get(r, "plugins") == Get(license, "plugins");
    assert PluginId(r) == PluginId(license);
    assert Get(r, "status") == Get(license, "status");
    var again := ProcessLicense(r).value;
    assert again.Keys == r.Keys;
    forall k | k in r ensures again[k] == r[k] {
      assert Get(again, k) == Get(r, k);
    }
    assert again == r;
  }

  lemma {:induction false} ProcessedFixed(list: seq<Record>)
    requires forall i :: 0 <= i < |list| ==> ProcessLicense(list[i]) == Done(list[i])
    ensures ProcessLicenses(list) == Done(list)
  {
    if list != [] {
      ProcessedFixed(list[1..]);
      assert [list[0]] + list[1..] == list;
    }
  }

  /** `licenses.find((license) => license.license_id === id)`: the first
      license whose id is strictly equal to `id`. */
  function FindLicense(licenses: seq<Record>, id: Value): (found: Option<Record>)
    ensures found.Some? ==> found.value in licenses && IsTarget(found.value, "license_id", id)
    ensures found.None? ==> forall i :: 0 <= i < |licenses| ==> !IsTarget(licenses[i], "license_id", id)
    ensures found.Some? ==> exists i :: 0 <= i < |licenses| && licenses[i] == found.value
                                        && forall k :: 0 <= k < i ==> !IsTarget(licenses[k], "license_id", id)
  {
    if licenses == [] then None
    else if IsTarget(licenses[0], "license_id", id) then Some(licenses[0])
    else FindLicense(licenses[1..], id)
  }

  /** `currentLicense?.allocated_to !== "N/A"`: a license that is not found
      also fails, since `undefined !== "N/A"`. */
  predicate Reservable(current: Option<Record>) {
    current.Some? && StrictEquals(Get(current.value, "allocated_to"), Str("N/A"))
  }

  /** The flag sent to the server: "0" to release a reserved license, "1" to
      reserve a free one. */
  function RequestedFlag(current: Record): string {
    if Truthy(Get(current, "is_reserved")) then "0" else "1"
  }

  class LicensesView {
    var licenses: seq<Record>
    var updatingRow: Value

    constructor (licenses: seq<Record>)
      ensures this.licenses == licenses && updatingRow == Null
    {
      this.licenses := licenses;
      updatingRow := Null;
    }

    /** `handleAction`. Returns the reservation request it sends, if any;
        `response` is the server's answer to that request. */
    method HandleAction(id: Value, action: string, response: Response<Value>) returns (request: Option<string>)
      modifies this
      ensures action != "toggle" ==> request == None && licenses == old(licenses) && updatingRow == old(updatingRow)
      ensures action == "toggle" ==> updatingRow == Null
      ensures action == "toggle" && !Reservable(FindLicense(old(licenses), id)) ==>
                request == None && licenses == old(licenses)
      ensures action == "toggle" && Reservable(FindLicense(old(licenses), id)) ==>
                request == Some(RequestedFlag(FindLicense(old(licenses), id).value))
      ensures request.Some? && response.Ok? ==>
                licenses == ReplaceWhere(old(licenses), "license_id", id, "is_reserved",
                                         Prop(Prop(response.payload, "license"), "is_reserved"))
      ensures request.Some? && !response.Ok? ==> licenses == old(licenses)
    {
      request := None;
      if action == "toggle" {
        updatingRow := id;
        var current := FindLicense(licenses, id);
        if !Reservable(current) {
          updatingRow := Null;
          return;
        }
        var flag := RequestedFlag(current.value);
        request := Some(flag);
        if response.Ok? {
          var data := response.payload;
          licenses := ReplaceWhere(licenses, "license_id", id, "is_reserved", Prop(Prop(data, "license"), "is_reserved"));
        }
        updatingRow := Null;
      }
    }
  }
}
