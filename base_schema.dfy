/** The shared pagination parameters `PaginationParams`: their defaults and the page-size cap. */
module BaseSchema {
  import opened Text

  datatype PaginationParams = PaginationParams(
    page: int,
    perPage: int,
    orderBy: Option<Str>,
    orderDir: Option<Str>)

  /** `PaginationParams.validate_per_page`: at most 100, returned unchanged; no lower bound. */
  function ValidatePerPage(v: int): (r: Result<int>)
    ensures r.Ok? <==> v <= 100
    ensures r.Ok? ==> r.value == v
    ensures r.Err? ==> r.error == ValueError("per_page cannot exceed 100")
  {
    if v > 100 then Err(ValueError("per_page cannot exceed 100")) else Ok(v)
  }

  /**
   * Builds `PaginationParams` from the fields given (`None` for an omitted
   * one; for the two optional fields, `Some(None)` is an explicit null).
   * Defaults are page 1, 50 per page, no ordering field, descending; as in
   * the schema, only a given `per_page` runs through the validator.
   */
  function NewPaginationParams(
    page: Option<int>, perPage: Option<int>,
    orderBy: Option<Option<Str>>, orderDir: Option<Option<Str>>): (r: Result<PaginationParams>)
    ensures r.Ok? <==> perPage.None? || perPage.value <= 100
    ensures r.Err? ==> r.error == ValueError("per_page cannot exceed 100")
    ensures r.Ok? ==> r.value.perPage <= 100
    ensures r.Ok? ==> r.value.page == (if page.Some? then page.value else 1)
    ensures r.Ok? ==> r.value.perPage == (if perPage.Some? then perPage.value else 50)
    ensures r.Ok? ==> r.value.orderBy == (if orderBy.Some? then orderBy.value else None)
    ensures r.Ok? ==> r.value.orderDir == (if orderDir.Some? then orderDir.value else Some("desc"))
  {
    var checked := if perPage.Some? then ValidatePerPage(perPage.value) else Ok(50);
    match checked
    case Err(e) => Err(e)
    case Ok(n) =>
      Ok(PaginationParams(
        if page.Some? then page.value else 1,
        n,
        if orderBy.Some? then orderBy.value else None,
        if orderDir.Some? then orderDir.value else Some("desc")))
  }

  /** The cap is inclusive, and 0 and negative page sizes pass. */
  lemma PerPageBounds()
    ensures ValidatePerPage(100) == Ok(100)
    ensures ValidatePerPage(101).Err?
    ensures ValidatePerPage(0) == Ok(0) && ValidatePerPage(-5) == Ok(-5)
  {
  }

  /** With every field omitted, the parameters are the defaults, and the default page size is within the cap. */
  lemma DefaultsWithinCap()
    ensures NewPaginationParams(None, None, None, None) == Ok(PaginationParams(1, 50, None, Some("desc")))
    ensures ValidatePerPage(50) == Ok(50)
  {
  }
}
