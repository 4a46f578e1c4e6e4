/** What the two license-creation forms share: the validators they call
    (from a validation module that is not part of this model, so they are
    parameters here), the organisation and date branches of their field
    validation, and the "any error?" test of their submit gate. */
module LicenseForms {
  import opened JsValues

  /** `{ isValid, message }` as the date validators return it. */
  datatype DateCheck = DateCheck(isValid: bool, message: string)

  /** `validateLicenseId`, `validateLicenseOrganization`,
      `validateValidFromDate` and `validateValidTillDate`. */
  datatype Validators = Validators(
    licenseId: string -> bool,
    organisation: string -> bool,
    validFrom: string -> DateCheck,
    validTill: (string, string) -> DateCheck)

  const OrganisationMessage := "Organization name must be 2-100 characters long. Ensures the first character is a capital letter."

  /** The `organisation` branch. */
  function OrganisationError(value: string, v: Validators): (message: string)
    ensures message == "" <==> v.organisation(value)
  {
    if !v.organisation(value) then OrganisationMessage else ""
  }

  /** The `validFrom` and `validTill` branches. Both read the dates from
      the form state the handler was rendered with, not the typed value. */
  function DateError(name: string, formData: Record, v: Validators): (message: string)
    requires name == "validFrom" || name == "validTill"
    ensures name == "validFrom" && !Truthy(Get(formData, "validFrom")) ==> message == ""
    ensures name == "validTill" && !(Truthy(Get(formData, "validFrom")) && Truthy(Get(formData, "validTill"))) ==>
              message == ""
    ensures name == "validFrom" && Truthy(Get(formData, "validFrom")) ==>
              var check := v.validFrom(Stringify(Get(formData, "validFrom")));
              (message == "" <==> check.isValid || check.message == "")
    ensures name == "validTill" && Truthy(Get(formData, "validFrom")) && Truthy(Get(formData, "validTill")) ==>
              var check := v.validTill(Stringify(Get(formData, "validFrom")), Stringify(Get(formData, "validTill")));
              (message == "" <==> check.isValid || check.message == "")
  {
    if name == "validFrom" then
      if Truthy(Get(formData, "validFrom")) then
        var check := v.validFrom(Stringify(Get(formData, "validFrom")));
        if !check.isValid then check.message else ""
      else ""
    else
      if Truthy(Get(formData, "validFrom")) && Truthy(Get(formData, "validTill")) then
        var check := v.validTill(Stringify(Get(formData, "validFrom")), Stringify(Get(formData, "validTill")));
        if !check.isValid then check.message else ""
      else ""
  }

  /** `Object.values(errors).some((error) => error !== "")` */
  predicate HasErrors(errors: map<string, string>) {
    exists k :: k in errors && errors[k] != ""
  }

  /** The date part of `date.toISOString()`, i.e. `split("T")[0]`; the
      clock itself is not modelled, so the two dates are inputs. */
  function InitialDates(today: string, nextYear: string): (form: Record)
    ensures form.Keys == {"validFrom", "validFromTime", "validTill", "validTillTime"}
    ensures form["validFromTime"] == Str("00:00") && form["validTillTime"] == Str("23:59")
  {
    map["validFrom" := Str(Split(today, 'T')[0]), "validFromTime" := Str("00:00"),
        "validTill" := Str(Split(nextYear, 'T')[0]), "validTillTime" := Str("23:59")]
  }

  /** Setting a field to the empty message clears an error; setting one to
      a message raises one; other fields are untouched. */
  lemma ErrorsAfterSet(errors: map<string, string>, name: string, message: string)
    ensures message != "" ==> HasErrors(errors[name := message])
    ensures message == "" && !HasErrors(errors) ==> !HasErrors(errors[name := message])
    ensures HasErrors(errors[name := message]) ==>
              message != "" || exists k :: k in errors && k != name && errors[k] != ""
  {
    if message != "" {
      assert errors[name := message][name] != "";
    }
  }
}
