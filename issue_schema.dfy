/**
 * The issue input schemas: the title and hour checks of `IssueCreate` and
 * `IssueUpdate`, and the self-link check of `IssueLinkCreate`.
 */
module IssueSchema {
  import opened Text
  import opened IssueModel

  /** `IssueCreate.validate_title`: 5 to 500 characters, returned unchanged. */
  function ValidateTitle(v: Str): (r: Result<Str>)
    ensures r.Ok? <==> 5 <= |v| <= 500
    ensures r.Ok? ==> r.value == v
    ensures |v| < 5 ==> r == Err(ValueError("Title must be at least 5 characters"))
    ensures |v| > 500 ==> r == Err(ValueError("Title must be max 500 characters"))
  {
    if |v| < 5 then
      Err(ValueError("Title must be at least 5 characters"))
    else if |v| > 500 then
      Err(ValueError("Title must be max 500 characters"))
    else
      Ok(v)
  }

  /** `IssueCreate.validate_estimate`: `None` or a non-negative count, returned unchanged. */
  function ValidateEstimate(v: Option<int>): (r: Result<Option<int>>)
    ensures r.Ok? <==> v.None? || v.value >= 0
    ensures r.Ok? ==> r.value == v
    ensures r.Err? ==> r.error == ValueError("Estimate hours cannot be negative")
  {
    if v.Some? && v.value < 0 then
      Err(ValueError("Estimate hours cannot be negative"))
    else
      Ok(v)
  }

  /** `IssueUpdate.validate_spent_hours`: `None` or a non-negative count, returned unchanged. */
  function ValidateSpentHours(v: Option<int>): (r: Result<Option<int>>)
    ensures r.Ok? <==> v.None? || v.value >= 0
    ensures r.Ok? ==> r.value == v
    ensures r.Err? ==> r.error == ValueError("Spent hours cannot be negative")
  {
    if v.Some? && v.value < 0 then
      Err(ValueError("Spent hours cannot be negative"))
    else
      Ok(v)
  }

  /**
   * The schema checks accept exactly the values the table's hour checks
   * admit, so a validated value never trips a constraint, and a value that
   * would trip one is already refused here.
   */
  lemma HourValidatorsMatchTableChecks(estimate: Option<int>, spent: Option<int>)
    ensures ValidateEstimate(estimate).Ok? <==> EstimateHoursCheck(estimate)
    ensures ValidateSpentHours(spent).Ok? <==> SpentHoursCheck(spent)
  {
  }

  /** An accepted title fits the `String(500)` title column and validates again unchanged. */
  lemma TitleFitsColumn(v: Str)
    requires ValidateTitle(v).Ok?
    ensures |ValidateTitle(v).value| <= 500
    ensures ValidateTitle(ValidateTitle(v).value) == ValidateTitle(v)
  {
  }

  /**
   * `IssueLinkCreate.validate_target_issue` as written: `data` is the map of
   * fields validated before `target_issue_id`; the link is refused only when
   * that map holds a `source_issue_id` equal to the target.
   */
  function ValidateTargetIssue(v: Uuid, data: map<Str, Uuid>): (r: Result<Uuid>)
    ensures r.Ok? ==> r.value == v
    ensures r.Err? <==> "source_issue_id" in data && data["source_issue_id"] == v
  {
    if "source_issue_id" in data && v == data["source_issue_id"] then
      Err(ValueError("Cannot link issue to itself"))
    else
      Ok(v)
  }

  /** The fields `IssueLinkCreate` declares, in declaration order. */
  const LinkCreateFields: seq<Str> := ["target_issue_id", "link_type"]

  /** The fields declared before `name`: those validated when `name`'s validator runs. */
  function FieldsBefore(fields: seq<Str>, name: Str): (before: seq<Str>)
    ensures forall f :: f in before ==> f in fields && f != name
  {
    if fields == [] || fields[0] == name then []
    else [fields[0]] + FieldsBefore(fields[1..], name)
  }

  /**
   * What `ValidateTargetIssue` sees in `IssueLinkCreate`, for a request body
   * given as its uuid-valued entries: the body's values for the declared
   * fields before `target_issue_id`. Undeclared keys, `source_issue_id`
   * among them, are dropped (`extra='ignore'`), and `target_issue_id` is
   * the first declared field, so whatever the body holds, no
   * `source_issue_id` reaches the check.
   */
  function LinkCreateDataBeforeTarget(body: map<Str, Uuid>): (data: map<Str, Uuid>)
    ensures forall k :: k in data ==> k in LinkCreateFields && k in body && data[k] == body[k]
    ensures "source_issue_id" !in data
  {
    var validated := set f | f in FieldsBefore(LinkCreateFields, "target_issue_id");
    body - (body.Keys - validated)
  }

  /**
   * The self-link check never fires as written: whatever the request body
   * (even one sending `source_issue_id` equal to the target), a link from an
   * issue to itself passes the schema and is refused only later, by the
   * table's `check_no_self_link`.
   */
  lemma SelfLinkPassesAsWritten(source: Uuid, body: map<Str, Uuid>)
    ensures ValidateTargetIssue(source, LinkCreateDataBeforeTarget(body)) == Ok(source)
    ensures !NoSelfLinkCheck(source, source)
  {
  }

  /**
   * The intended self-link check, given the source issue explicitly (as the
   * handler knows it): refuses exactly the links the table would refuse.
   */
  function ValidateLinkTarget(source: Uuid, target: Uuid): (r: Result<Uuid>)
    ensures r.Ok? <==> NoSelfLinkCheck(source, target)
    ensures r.Ok? ==> r.value == target
    ensures r.Err? ==> r.error == ValueError("Cannot link issue to itself")
  {
    ValidateTargetIssue(target, map["source_issue_id" := source])
  }
}
