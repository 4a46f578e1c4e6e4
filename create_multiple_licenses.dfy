/** The bulk license form: a number of licenses between 2 and 50, per-field
    validation on change, and the submit gate. */
module CreateMultipleLicenses {
  import opened JsValues
  import opened LicenseForms

  const CountMessage := "Number must be between 2 and 50"

  /** `value < 2 || value > 50` on the typed text: both comparisons convert
      it to a number, and NaN makes both false. */
  predicate OutOfRange(value: string) {
    match StrToNumber(value)
    case Some(n) => n < 2 || n > 50
    case None => false
  }

  /** `validateField(name, value)` against the form state it was rendered with. */
  function ValidateField(name: string, value: string, formData: Record, v: Validators): (message: string)
    ensures name == "numberOfLicenses" ==>
              (message != "" <==> OutOfRange(value)) && (message != "" ==> message == CountMessage)
    ensures name == "organisation" ==> (message == "" <==> v.organisation(value))
    ensures name == "validFrom" || name == "validTill" ==> message == DateError(name, formData, v)
    ensures name !in {"numberOfLicenses", "organisation", "validFrom", "validTill"} ==> message == ""
  {
    match name
    case "numberOfLicenses" => if OutOfRange(value) then CountMessage else ""
    case "organisation" => OrganisationError(value, v)
    case "validFrom" => DateError(name, formData, v)
    case "validTill" => DateError(name, formData, v)
    case _ => ""
  }

  /** A count written as plain digits is accepted exactly when it lies in
      2..50, whatever its leading zeros. */
  lemma CountRange(digits: string)
    requires |digits| >= 1 && AllDigits(digits)
    ensures !OutOfRange(digits) <==> 2 <= DigitsValue(digits) <= 50
  {
    DigitsNumber(digits);
  }

  /** The empty text converts to 0 and is rejected; text that is not a
      number compares false both ways and is let through. */
  lemma CountEdgeCases()
    ensures OutOfRange("")
    ensures !OutOfRange("ten")
  {
    assert TrimStart("ten") == "ten" && TrimEnd("ten") == "ten";
    assert !IsDigit("ten"[0]);
  }

  /** The form's initial state: two licenses, organisation "IAF". */
  function InitialForm(today: string, nextYear: string): (form: Record)
    ensures form.Keys == {"numberOfLicenses", "organisation", "validFrom", "validFromTime", "validTill", "validTillTime"}
    ensures form["numberOfLicenses"] == Num(2) && form["organisation"] == Str("IAF")
    ensures form["validFromTime"] == Str("00:00") && form["validTillTime"] == Str("23:59")
  {
    InitialDates(today, nextYear)["numberOfLicenses" := Num(2)]["organisation" := Str("IAF")]
  }

  class MultipleLicensesForm {
    var isLoading: bool
    var errors: map<string, string>
    var formData: Record

    /** `today` and `nextYear` are the two dates' ISO strings. */
    constructor (today: string, nextYear: string)
      ensures formData == InitialForm(today, nextYear) && errors == map[] && !isLoading
    {
      isLoading := false;
      errors := map[];
      formData := InitialForm(today, nextYear);
    }

    /** `handleChange`: the named field takes the typed value and its error
        the message for it; nothing else changes. */
    method HandleChange(name: string, value: string, v: Validators)
      modifies this
      ensures formData == old(formData)[name := Str(value)]
      ensures errors == old(errors)[name := ValidateField(name, value, old(formData), v)]
      ensures forall k :: k != name ==> (k in formData <==> k in old(formData)) && Get(formData, k) == Get(old(formData), k)
      ensures forall k :: k != name ==> (k in errors <==> k in old(errors)) && (k in errors ==> errors[k] == old(errors)[k])
      ensures isLoading == old(isLoading)
    {
      var error := ValidateField(name, value, formData, v);
      formData := formData[name := Str(value)];
      errors := errors[name := error];
    }

    /** The synchronous part of `handleSubmit`: nothing happens while a
        submit is in flight; any non-empty error rejects the submit without
        a request; otherwise loading starts and the form data is sent. */
    method BeginSubmit() returns (request: Option<Record>)
      modifies this
      ensures request.Some? <==> !old(isLoading) && !HasErrors(errors)
      ensures request.Some? ==> request.value == formData && isLoading
      ensures request.None? ==> isLoading == old(isLoading)
      ensures formData == old(formData) && errors == old(errors)
    {
      if isLoading {
        return None;
      }
      if HasErrors(errors) {
        // toast: "Please fix the validation errors"
        return None;
      }
      isLoading := true;
      request := Some(formData);
    }

    /** The rest of `handleSubmit`, given whether `createMultipleLicenses`
        resolved: if it did the form closes and the list reloads; loading
        ends on every path. */
    method FinishSubmit(outcome: Result<Value>) returns (created: bool)
      modifies this
      ensures created <==> outcome.Done?
      ensures !isLoading
      ensures formData == old(formData) && errors == old(errors)
    {
      created := outcome.Done?;
      isLoading := false;
    }
  }
}
