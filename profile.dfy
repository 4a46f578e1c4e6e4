/** The account-statistics card of the profile page: how complete the
    profile is, and which of the required fields are still missing. */
module Profile {
  import opened JsValues
  import opened Seqs

  /** The required fields with their labels, in declaration order. */
  const RequiredFields: seq<(string, string)> := [
    ("first_name", "First Name"),
    ("last_name", "Last Name"),
    ("email", "Email"),
    ("phone_number", "Phone Number"),
    ("address", "Address"),
    ("organization", "Organization")
  ]

  /** `userInfo?.[key]` is truthy. */
  function Filled(userInfo: Value): ((string, string)) -> bool {
    (field: (string, string)) => Truthy(Prop(userInfo, field.0))
  }

  function Missing(userInfo: Value): ((string, string)) -> bool {
    (field: (string, string)) => !Truthy(Prop(userInfo, field.0))
  }

  /** `requiredFields.filter((field) => userInfo?.[field]).length` */
  function FilledCount(userInfo: Value): (filled: nat)
    ensures filled <= |RequiredFields|
  {
    |Filter(RequiredFields, Filled(userInfo))|
  }

  /** `calculateProfileCompletion`: `Math.round(filled / 6 * 100)`. */
  function ProfileCompletion(userInfo: Value): (percent: int)
    // the nearest whole percent, a half rounding up, as Math.round does
    ensures -3 <= 6 * percent - 100 * FilledCount(userInfo) < 3
    ensures 0 <= percent <= 100
  {
    RoundedPercent(FilledCount(userInfo))
  }

  /** `Math.round(filled / 6 * 100)` for a count of at most six. */
  function RoundedPercent(filled: nat): (percent: int)
    requires filled <= 6
    ensures -3 <= 6 * percent - 100 * filled < 3
    ensures 0 <= percent <= 100
  {
    var percent := (200 * filled + 6) / 12;
    assert percent == [0, 17, 33, 50, 67, 83, 100][filled];
    percent
  }

  function Labels(fields: seq<(string, string)>): (labels: seq<string>)
    ensures |labels| == |fields|
    ensures forall i :: 0 <= i < |fields| ==> labels[i] == fields[i].1
  {
    seq(|fields|, i requires 0 <= i < |fields| => fields[i].1)
  }

  /** `getMissingFields`: the labels of the falsy fields, in order. */
  function MissingFields(userInfo: Value): (labels: seq<string>)
    ensures |labels| == |Filter(RequiredFields, Missing(userInfo))|
  {
    Labels(Filter(RequiredFields, Missing(userInfo)))
  }

  /** Filled and missing fields split a list of fields between them. */
  lemma {:induction false} FilledPlusMissing(fields: seq<(string, string)>, userInfo: Value)
    ensures |Filter(fields, Filled(userInfo))| + |Filter(fields, Missing(userInfo))| == |fields|
  {
    if fields != [] {
      FilledPlusMissing(fields[1..], userInfo);
    }
  }

  predicate DistinctLabels(fields: seq<(string, string)>) {
    forall a, b :: 0 <= a < b < |fields| ==> fields[a].1 != fields[b].1
  }

  lemma RequiredLabelsDistinct()
    ensures DistinctLabels(RequiredFields)
  {
  }

  /** With distinct labels, a field's label is listed exactly when the field
      is missing. */
  lemma MissingLabelListed(fields: seq<(string, string)>, userInfo: Value, i: int)
    requires DistinctLabels(fields) && 0 <= i < |fields|
    ensures fields[i].1 in Labels(Filter(fields, Missing(userInfo))) <==> !Truthy(Prop(userInfo, fields[i].0))
  {
    var missing := Filter(fields, Missing(userInfo));
    var labels := Labels(missing);
    if !Truthy(Prop(userInfo, fields[i].0)) {
      assert fields[i] in missing;
      var k :| 0 <= k < |missing| && missing[k] == fields[i];
      assert labels[k] == fields[i].1;
    }
    if fields[i].1 in labels {
      var k :| 0 <= k < |labels| && labels[k] == fields[i].1;
      assert missing[k] in fields && Missing(userInfo)(missing[k]);
      var j :| 0 <= j < |fields| && fields[j] == missing[k];
      assert j == i;
    }
  }

  /** The missing labels and the filled count always add up to six, and a
      label is listed exactly when its field is falsy. */
  lemma MissingComplementsFilled(userInfo: Value)
    ensures |MissingFields(userInfo)| + FilledCount(userInfo) == 6
    ensures forall i :: 0 <= i < |RequiredFields| ==>
              (RequiredFields[i].1 in MissingFields(userInfo) <==> !Truthy(Prop(userInfo, RequiredFields[i].0)))
  {
    FilledPlusMissing(RequiredFields, userInfo);
    RequiredLabelsDistinct();
    forall i | 0 <= i < |RequiredFields|
      ensures RequiredFields[i].1 in MissingFields(userInfo) <==> !Truthy(Prop(userInfo, RequiredFields[i].0))
    {
      MissingLabelListed(RequiredFields, userInfo, i);
    }
  }

  /** The missing labels come in the order the fields are declared. */
  lemma MissingFieldsInOrder(userInfo: Value)
    ensures Subseq(MissingFields(userInfo), ["First Name", "Last Name", "Email", "Phone Number", "Address", "Organization"])
  {
    FilterIsSubseq(RequiredFields, Missing(userInfo));
    LabelsOfSubseq(Filter(RequiredFields, Missing(userInfo)), RequiredFields);
    RequiredLabels();
  }

  lemma {:induction false} LabelsOfSubseq(a: seq<(string, string)>, b: seq<(string, string)>)
    requires Subseq(a, b)
    ensures Subseq(Labels(a), Labels(b))
    decreases |b|
  {
    if b != [] {
      assert Labels(b)[1..] == Labels(b[1..]);
      if a != [] && a[0] == b[0] && Subseq(a[1..], b[1..]) {
        LabelsOfSubseq(a[1..], b[1..]);
        assert Labels(a)[1..] == Labels(a[1..]);
      } else {
        LabelsOfSubseq(a, b[1..]);
      }
    }
  }

  /** 100% exactly when all six fields are filled, 0% exactly when none is. */
  lemma CompletionExtremes(userInfo: Value)
    ensures ProfileCompletion(userInfo) == 100 <==> FilledCount(userInfo) == 6
    ensures ProfileCompletion(userInfo) == 0 <==> FilledCount(userInfo) == 0
    ensures FilledCount(userInfo) == 6 <==> forall i :: 0 <= i < 6 ==> Truthy(Prop(userInfo, RequiredFields[i].0))
  {
    var all := forall i :: 0 <= i < 6 ==> Truthy(Prop(userInfo, RequiredFields[i].0));
    if all {
      FilterKeepsAll(RequiredFields, Filled(userInfo));
    } else {
      var i :| 0 <= i < 6 && !Truthy(Prop(userInfo, RequiredFields[i].0));
      MissingComplementsFilled(userInfo);
      assert RequiredFields[i].1 in MissingFields(userInfo);
    }
  }

  /** Without user information the card shows 0% and all six labels. */
  lemma NoUserInfo()
    ensures ProfileCompletion(Undefined) == 0
    ensures MissingFields(Undefined) == ["First Name", "Last Name", "Email", "Phone Number", "Address", "Organization"]
  {
    FilterKeepsAll(RequiredFields, Missing(Undefined));
    FilledPlusMissing(RequiredFields, Undefined);
    RequiredLabels();
  }

  lemma RequiredLabels()
    ensures Labels(RequiredFields) == ["First Name", "Last Name", "Email", "Phone Number", "Address", "Organization"]
  {
    var labels := Labels(RequiredFields);
    assert labels[0] == "First Name" && labels[1] == "Last Name" && labels[2] == "Email";
    assert labels[3] == "Phone Number" && labels[4] == "Address" && labels[5] == "Organization";
  }
}
