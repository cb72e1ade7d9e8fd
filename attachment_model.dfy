/**
 * The attachment table: the size cap the ORM checks whenever a size is
 * assigned, and the table's check constraints on the owner and the size.
 */
module AttachmentModel {
  import opened Text

  /** `Attachment.validate_size`: at most 50 MiB, returned unchanged; no lower bound. */
  function ValidateSize(size: int): (r: Result<int>)
    ensures r.Ok? <==> size <= 52428800
    ensures r.Ok? ==> r.value == size
    ensures r.Err? ==> r.error == ValueError("File size exceeds maximum of 52428800 bytes")
  {
    var maxSize := 50 * 1024 * 1024;
    if size > maxSize then
      Err(ValueError("File size exceeds maximum of 52428800 bytes"))
    else
      Ok(size)
  }

  /** `check_attachment_reference`: the attachment belongs to an issue or to a comment, not both. */
  predicate AttachmentReferenceCheck(issueId: Option<Uuid>, commentId: Option<Uuid>): (ok: bool)
    ensures ok <==> (issueId.Some? != commentId.Some?)
  {
    (issueId.Some? && commentId.None?) || (issueId.None? && commentId.Some?)
  }

  /** `check_positive_size`: a stored file holds at least one byte. */
  predicate PositiveSizeCheck(size: int): (ok: bool)
    ensures ok <==> size >= 1
  {
    size > 0
  }

  /**
   * The cap is inclusive, and the validator has no lower bound: an empty or
   * negative size passes it and is refused only by `check_positive_size`.
   */
  lemma SizeBounds()
    ensures ValidateSize(52428800) == Ok(52428800)
    ensures ValidateSize(52428801).Err?
    ensures ValidateSize(0) == Ok(0) && !PositiveSizeCheck(0)
    ensures ValidateSize(-1) == Ok(-1) && !PositiveSizeCheck(-1)
  {
  }

  /** A size is storable exactly when it is between 1 byte and 50 MiB. */
  lemma StorableSizes(size: int)
    ensures ValidateSize(size).Ok? && PositiveSizeCheck(size) <==> 1 <= size <= 52428800
  {
  }
}
