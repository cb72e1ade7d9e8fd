/** The comment input schema `CommentCreate`: its content check and its defaults. */
module CommentSchema {
  import opened Text

  datatype CommentCreate = CommentCreate(content: Str, isInternal: bool, attachments: seq<Uuid>)

  /** Some character of `v` is not whitespace. */
  predicate HasVisibleChar(v: Str) {
    exists i :: 0 <= i < |v| && !IsSpace(v[i])
  }

  /**
   * `CommentCreate.validate_content`: refused when `len(v.strip()) == 0`,
   * that is exactly when the content is empty or all whitespace; accepted
   * content is returned unstripped.
   */
  function ValidateContent(v: Str): (r: Result<Str>)
    ensures r.Ok? <==> HasVisibleChar(v)
    ensures r.Ok? ==> r.value == v
    ensures r.Err? ==> r.error == ValueError("Comment cannot be empty")
  {
    StripEmptyIffBlank(v);
    if |Strip(v)| == 0 then Err(ValueError("Comment cannot be empty")) else Ok(v)
  }

  /**
   * Builds a `CommentCreate` from the fields given (`None` for an omitted
   * one): `is_internal` defaults to false and `attachments` to [].
   */
  function NewCommentCreate(content: Str, isInternal: Option<bool>, attachments: Option<seq<Uuid>>)
    : (r: Result<CommentCreate>)
    ensures r.Ok? <==> HasVisibleChar(content)
    ensures r.Ok? ==> r.value.content == content
    ensures r.Ok? && isInternal.None? ==> !r.value.isInternal
    ensures r.Ok? && attachments.None? ==> r.value.attachments == []
    ensures r.Ok? && isInternal.Some? ==> r.value.isInternal == isInternal.value
    ensures r.Ok? && attachments.Some? ==> r.value.attachments == attachments.value
  {
    match ValidateContent(content)
    case Err(e) => Err(e)
    case Ok(c) =>
      Ok(CommentCreate(
        c,
        if isInternal.Some? then isInternal.value else false,
        if attachments.Some? then attachments.value else []))
  }

  /** The boundary cases: "", blanks only, and text with surrounding blanks (kept as given). */
  lemma ContentExamples()
    ensures ValidateContent([]).Err?
    ensures ValidateContent(" \t\n").Err?
    ensures ValidateContent(" ok ") == Ok(" ok ")
  {
    var b: Str := " \t\n";
    assert !HasVisibleChar(b) by {
      forall i | 0 <= i < |b| ensures IsSpace(b[i]) { }
    }
    var s: Str := " ok ";
    assert !IsSpace(s[1]);
  }
}
