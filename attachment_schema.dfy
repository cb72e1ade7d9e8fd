/** The attachment input schema: the size cap of `AttachmentCreate`. */
module AttachmentSchema {
  import opened Text
  import AttachmentModel

  /** `AttachmentCreate.validate_size`: at most 50 MiB, returned unchanged; 0 and negatives pass. */
  function ValidateSize(v: int): (r: Result<int>)
    ensures r.Ok? <==> v <= 52428800
    ensures r.Ok? ==> r.value == v
    ensures r.Err? ==> r.error == ValueError("File size exceeds maximum of 52428800 bytes")
  {
    var maxSize := 50 * 1024 * 1024;
    if v > maxSize then
      Err(ValueError("File size exceeds maximum of 52428800 bytes"))
    else
      Ok(v)
  }

  /** The schema and the table accept exactly the same sizes, with the same result. */
  lemma SizeValidatorsAgree(v: int)
    ensures ValidateSize(v) == AttachmentModel.ValidateSize(v)
  {
  }
}
