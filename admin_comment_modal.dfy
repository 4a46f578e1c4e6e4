/** The admin-comment modal: a comment box whose submit refuses blank text,
    hands the comment to the caller's `onSubmit`, and clears and closes only
    when that call succeeds. */
module AdminCommentModal {
  import opened JsValues

  /** How the synchronous part of `handleSubmit` ends. */
  datatype SubmitStart =
    | Sent(comment: string)      // `onSubmit(comment)` was called
    | Warned                     // the blank-comment toast was shown
    | ThrewReferenceError        // `toast` is not in scope: the handler throws

  /** `!comment.trim()` */
  predicate Blank(comment: string) {
    Trim(comment) == ""
  }

  lemma BlankMeansOnlySpace(comment: string)
    ensures Blank(comment) <==> forall i :: 0 <= i < |comment| ==> IsSpace(comment[i])
  {
    if Blank(comment) {
      AllSpace(comment);
    } else if forall i :: 0 <= i < |comment| ==> IsSpace(comment[i]) {
      NoneLeft(comment);
    }
  }

  /** Unicode space and line separators count as blank, as they do for
      `trim`. */
  lemma UnicodeSpaceIsBlank()
    ensures Blank([0x3000 as char, 0x2028 as char, 0x1680 as char, 0x2009 as char])
  {
    var s := [0x3000 as char, 0x2028 as char, 0x1680 as char, 0x2009 as char];
    assert forall i :: 0 <= i < |s| ==> IsSpace(s[i]);
    NoneLeft(s);
  }

  /** One printable character after a separator makes the comment non-blank. */
  lemma PrintableIsNotBlank()
    ensures !Blank([0x3000 as char, 'x'])
  {
    var s := [0x3000 as char, 'x'];
    assert !IsSpace(s[1]);
    BlankMeansOnlySpace(s);
  }

  lemma {:induction false} AllSpace(s: string)
    requires TrimEnd(TrimStart(s)) == ""
    ensures forall i :: 0 <= i < |s| ==> IsSpace(s[i])
  {
    var t := TrimStart(s);
    TrimEndDropsSpace(t);
    assert t == [];
    TrimStartDropsSpace(s);
  }

  lemma {:induction false} TrimStartDropsSpace(s: string)
    ensures forall i :: 0 <= i < |s| - |TrimStart(s)| ==> IsSpace(s[i])
  {
    if s != [] && IsSpace(s[0]) {
      TrimStartDropsSpace(s[1..]);
    }
  }

  lemma {:induction false} TrimEndDropsSpace(s: string)
    requires TrimEnd(s) == ""
    ensures forall i :: 0 <= i < |s| ==> IsSpace(s[i])
  {
    if s != [] {
      TrimEndDropsSpace(s[..|s| - 1]);
    }
  }

  lemma {:induction false} NoneLeft(s: string)
    requires forall i :: 0 <= i < |s| ==> IsSpace(s[i])
    ensures TrimStart(s) == []
  {
    if s != [] {
      NoneLeft(s[1..]);
    }
  }

  class CommentModal {
    var comment: string
    var isSubmitting: bool

    constructor ()
      ensures comment == "" && !isSubmitting
    {
      comment := "";
      isSubmitting := false;
    }

    /** The textarea's `onChange`. */
    method SetComment(text: string)
      modifies this
      ensures comment == text && isSubmitting == old(isSubmitting)
    {
      comment := text;
    }

    /** `handleSubmit` up to the `await`, as written: a blank comment
        reaches `toast.error`, which is not imported, so the handler throws
        there; `onSubmit` is not called and nothing changes. Otherwise
        `isSubmitting` goes up and the comment is sent. */
    method BeginSubmit() returns (start: SubmitStart)
      modifies this
      ensures Blank(old(comment)) ==> start == ThrewReferenceError
      ensures !Blank(old(comment)) ==> start == Sent(old(comment))
      ensures start.Sent? ==> isSubmitting
      ensures !start.Sent? ==> isSubmitting == old(isSubmitting)
      ensures comment == old(comment)
    {
      if Blank(comment) {
        // toast.error(...): ReferenceError
        return ThrewReferenceError;
      }
      isSubmitting := true;
      start := Sent(comment);
    }

    /** `handleSubmit` up to the `await` with `toast` imported: a blank
        comment shows the warning and returns normally. */
    method BeginSubmitFixed() returns (start: SubmitStart)
      modifies this
      ensures Blank(old(comment)) ==> start == Warned
      ensures !Blank(old(comment)) ==> start == Sent(old(comment))
      ensures start != ThrewReferenceError
      ensures start.Sent? ==> isSubmitting
      ensures !start.Sent? ==> isSubmitting == old(isSubmitting)
      ensures comment == old(comment)
    {
      if Blank(comment) {
        // toast.error("Please enter a comment before submitting")
        return Warned;
      }
      isSubmitting := true;
      start := Sent(comment);
    }

    /** The rest of `handleSubmit`, given whether `onSubmit` resolved: on
        success the comment is cleared and `onClose` is called; on a
        rejection (try/finally, no catch) the comment stays and the modal
        stays open. `isSubmitting` drops either way. */
    method FinishSubmit(resolved: bool) returns (closed: bool)
      modifies this
      ensures closed == resolved
      ensures resolved ==> comment == ""
      ensures !resolved ==> comment == old(comment)
      ensures !isSubmitting
    {
      if resolved {
        comment := "";
      }
      closed := resolved;
      isSubmitting := false;
    }
  }
}
