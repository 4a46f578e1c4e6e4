/** The single-license form: the `LIC-NNNNN` successor of the last issued
    id, per-field validation on change, and the submit gate. */
module CreateSingleLicense {
  import opened JsValues
  import opened LicenseForms

  const FirstLicenseId := "LIC-00001"

  const LicenseIdMessage := "License ID must be 3-30 characters long and can contain letters, numbers and hyphens"

  /** `generateNextLicenseId(lastId)`: a falsy id starts the sequence; a
      string id yields "LIC-" and the number after its first "-" plus one,
      zero-padded to five places ("00NaN" when that is not a number); any
      other truthy value has no `split` and throws. */
  function GenerateNextLicenseId(lastId: Value): (r: Result<string>)
    ensures !Truthy(lastId) ==> r == Done(FirstLicenseId)
    ensures Truthy(lastId) ==> (r.Done? <==> lastId.Str?)
    ensures r.Done? ==> |r.value| >= 9 && r.value[..4] == "LIC-"
  {
    if !Truthy(lastId) then Done(FirstLicenseId)
    else match lastId
      case Str(s) =>
        var parts := Split(s, '-');
        var numPart := if |parts| >= 2 then Str(parts[1]) else Undefined;
        var next := match ToNumber(numPart) case Some(n) => Some(n + 1) case None => None;
        Done("LIC-" + PadStartZeros(NumberOrNaNToString(next), 5))
      case _ => Thrown
  }

  function Pow10(k: nat): nat {
    if k == 0 then 1 else 10 * Pow10(k - 1)
  }

  lemma {:induction false} DecimalLength(n: nat, k: nat)
    requires 1 <= k && n < Pow10(k)
    ensures |NatToDecimal(n)| <= k
  {
    if n >= 10 {
      assert k >= 2;
      DecimalLength(n / 10, k - 1);
    }
  }

  /** An id of the form `<prefix>-<digits>` whose number is below 99999 is
      followed by a nine-character "LIC-" id whose five digits read as
      that number plus one (so "LIC-00041" is followed by "LIC-00042"). */
  lemma NextIdIncrements(prefix: string, digits: string)
    requires '-' !in prefix
    requires |digits| >= 1 && AllDigits(digits) && DigitsValue(digits) < 99999
    ensures var r := GenerateNextLicenseId(Str(prefix + "-" + digits));
            && r.Done? && |r.value| == 9 && r.value[..4] == "LIC-"
            && AllDigits(r.value[4..]) && DigitsValue(r.value[4..]) == DigitsValue(digits) + 1
  {
    var id := prefix + "-" + digits;
    IdParts(prefix, digits);
    DigitsNumber(digits);
    var n: nat := DigitsValue(digits) + 1;
    PaddedDecimal(n);
    var padded := PadStartZeros(NatToDecimal(n), 5);
    assert NumberOrNaNToString(Some(n)) == NatToDecimal(n);
    var r := "LIC-" + padded;
    assert GenerateNextLicenseId(Str(id)) == Done(r);
    assert r[4..] == padded;
  }

  lemma IdParts(prefix: string, digits: string)
    requires '-' !in prefix && AllDigits(digits)
    ensures Split(prefix + "-" + digits, '-') == [prefix, digits]
  {
    assert '-' !in digits by {
      forall i | 0 <= i < |digits| ensures digits[i] != '-' {
        assert IsDigit(digits[i]);
      }
    }
    SplitAtFirst(prefix, '-', digits);
  }

  /** Five zero-padded digits that read as `n`. */
  lemma PaddedDecimal(n: nat)
    requires n < 100000
    ensures var padded := PadStartZeros(NatToDecimal(n), 5);
            |padded| == 5 && AllDigits(padded) && DigitsValue(padded) == n
  {
    var shown := NatToDecimal(n);
    assert Pow10(5) == 100000;
    DecimalLength(n, 5);
    assert PadStartZeros(shown, 5) == Zeros(5 - |shown|) + shown;
    DigitsValueLeadingZeros(5 - |shown|, shown);
    DecimalRoundTrip(n);
  }

  /** `validateField(name, value)` against the form state it was rendered with. */
  function ValidateField(name: string, value: string, formData: Record, v: Validators): (message: string)
    ensures name == "licenseId" ==> (message == "" <==> v.licenseId(value))
    ensures name == "organisation" ==> (message == "" <==> v.organisation(value))
    ensures name == "validFrom" || name == "validTill" ==> message == DateError(name, formData, v)
    ensures name !in {"licenseId", "organisation", "validFrom", "validTill"} ==> message == ""
  {
    match name
    case "licenseId" => if !v.licenseId(value) then LicenseIdMessage else ""
    case "organisation" => OrganisationError(value, v)
    case "validFrom" => DateError(name, formData, v)
    case "validTill" => DateError(name, formData, v)
    case _ => ""
  }

  /** Typing into a date field validates the date already in the form, not
      the one typed: the message does not depend on the typed value. */
  lemma DateFieldIgnoresTypedValue(name: string, a: string, b: string, formData: Record, v: Validators)
    requires name == "validFrom" || name == "validTill"
    ensures ValidateField(name, a, formData, v) == ValidateField(name, b, formData, v)
  {
  }

  /** The form's initial state. */
  function InitialForm(today: string, nextYear: string): (form: Record)
    ensures form.Keys == {"licenseId", "organisation", "validFrom", "validFromTime", "validTill", "validTillTime"}
    ensures form["licenseId"] == Str("") && form["organisation"] == Str("IAF")
    ensures form["validFromTime"] == Str("00:00") && form["validTillTime"] == Str("23:59")
  {
    InitialDates(today, nextYear)["licenseId" := Str("")]["organisation" := Str("IAF")]
  }

  class SingleLicenseForm {
    var isLoading: bool
    var errors: map<string, string>
    var formData: Record

    /** `today` and `nextYear` are the two dates' ISO strings. */
    constructor (today: string, nextYear: string)
      ensures formData == InitialForm(today, nextYear) && errors == map[] && !isLoading
    {
      isLoading := false;
      errors := map[];
      formData := InitialForm(today, nextYear);
    }

    /** `handleChange`: the named field takes the typed value and its error
        the message for it; nothing else changes. */
    method HandleChange(name: string, value: string, v: Validators)
      modifies this
      ensures formData == old(formData)[name := Str(value)]
      ensures errors == old(errors)[name := ValidateField(name, value, old(formData), v)]
      ensures forall k :: k != name ==> (k in formData <==> k in old(formData)) && Get(formData, k) == Get(old(formData), k)
      ensures forall k :: k != name ==> (k in errors <==> k in old(errors)) && (k in errors ==> errors[k] == old(errors)[k])
      ensures isLoading == old(isLoading)
    {
      var error := ValidateField(name, value, formData, v);
      formData := formData[name := Str(value)];
      errors := errors[name := error];
    }

    /** The effect that re-validates both dates whenever a date or time
        field changes, now with the new form state. */
    method RevalidateDates(v: Validators)
      modifies this
      ensures Truthy(Get(formData, "validFrom")) && Truthy(Get(formData, "validFromTime")) ==>
                "validFrom" in errors && errors["validFrom"] == DateError("validFrom", formData, v)
      ensures Truthy(Get(formData, "validTill")) && Truthy(Get(formData, "validTillTime")) ==>
                "validTill" in errors && errors["validTill"] == DateError("validTill", formData, v)
      ensures forall k :: k != "validFrom" && k != "validTill" ==>
                (k in errors <==> k in old(errors)) && (k in errors ==> errors[k] == old(errors)[k])
      ensures formData == old(formData) && isLoading == old(isLoading)
    {
      if Truthy(Get(formData, "validFrom")) && Truthy(Get(formData, "validFromTime")) {
        errors := errors["validFrom" := DateError("validFrom", formData, v)];
      }
      if Truthy(Get(formData, "validTill")) && Truthy(Get(formData, "validTillTime")) {
        errors := errors["validTill" := DateError("validTill", formData, v)];
      }
    }

    /** `fetchAndSetNextLicenseId` as written: `getLastLicenseId` is not
        imported, so the call throws a ReferenceError before any request
        and the catch always sets the first id. */
    method FetchAndSetNextLicenseId()
      modifies this
      ensures formData == old(formData)["licenseId" := Str(FirstLicenseId)]
      ensures errors == old(errors) && isLoading == old(isLoading)
    {
      // getLastLicenseId(): ReferenceError, caught
      formData := formData["licenseId" := Str(FirstLicenseId)];
    }

    /** `fetchAndSetNextLicenseId` with `getLastLicenseId` in scope: the
        response body (or the throw of the request or of its decoding)
        yields the successor of `last_license_id`, and any throw, including
        one from the generator, falls back to the first id. */
    method FetchAndSetNextLicenseIdFixed(body: Result<Value>)
      modifies this
      ensures body.Done? && GenerateNextLicenseId(Prop(body.value, "last_license_id")).Done? ==>
                formData == old(formData)["licenseId" := Str(GenerateNextLicenseId(Prop(body.value, "last_license_id")).value)]
      ensures !(body.Done? && GenerateNextLicenseId(Prop(body.value, "last_license_id")).Done?) ==>
                formData == old(formData)["licenseId" := Str(FirstLicenseId)]
      ensures errors == old(errors) && isLoading == old(isLoading)
    {
      var nextId := FirstLicenseId;
      if body.Done? {
        var generated := GenerateNextLicenseId(Prop(body.value, "last_license_id"));
        if generated.Done? {
          nextId := generated.value;
        }
      }
      formData := formData["licenseId" := Str(nextId)];
    }

    /** The synchronous part of `handleSubmit`: nothing happens while a
        submit is in flight; any non-empty error rejects the submit without
        a request; otherwise loading starts and the form data is sent. */
    method BeginSubmit() returns (request: Option<Record>)
      modifies this
      ensures request.Some? <==> !old(isLoading) && !HasErrors(errors)
      ensures request.Some? ==> request.value == formData && isLoading
      ensures request.None? ==> isLoading == old(isLoading)
      ensures formData == old(formData) && errors == old(errors)
    {
      if isLoading {
        return None;
      }
      if HasErrors(errors) {
        // toast: "Please fix the validation errors"
        return None;
      }
      isLoading := true;
      request := Some(formData);
    }

    /** The rest of `handleSubmit`, given what `createLicense` came to:
        a truthy `license_id` closes the form and reloads the list; loading
        ends on every path. */
    method FinishSubmit(outcome: Result<Value>) returns (created: bool)
      modifies this
      ensures created <==> outcome.Done? && Truthy(Prop(outcome.value, "license_id"))
      ensures !isLoading
      ensures formData == old(formData) && errors == old(errors)
    {
      created := outcome.Done? && Truthy(Prop(outcome.value, "license_id"));
      isLoading := false;
    }
  }
}
