/**
 * The project input schema: the workflow record types that describe a
 * project's configurable statuses and transitions, and the key check that
 * `ProjectCreate` runs on an incoming project key.
 */
module ProjectSchema {
  import opened Text

  /**
   * One status of a workflow. `isInitial` and `isFinal` are Python
   * `Optional[bool]` fields: `None` means the flag is absent or null.
   */
  datatype WorkflowStatus = WorkflowStatus(
    id: Str,
    name: Str,
    color: Str,
    isInitial: Option<bool>,
    isFinal: Option<bool>)

  /** The statuses directly reachable from `fromStatus`. */
  datatype WorkflowTransition = WorkflowTransition(fromStatus: Str, toStatuses: seq<Str>)

  /** A status counts as initial (final) only when its flag is literally true. */
  predicate IsInitialStatus(s: WorkflowStatus) { s.isInitial == Some(true) }

  predicate IsFinalStatus(s: WorkflowStatus) { s.isFinal == Some(true) }

  /**
   * Builds a `WorkflowStatus` as the schema does from its fields; a flag
   * passed as `None` was omitted by the caller, and a flag passed as
   * `Some(x)` was given the (possibly null) value `x`.
   */
  function NewWorkflowStatus(
    id: Str, name: Str, color: Str,
    isInitial: Option<Option<bool>>, isFinal: Option<Option<bool>>): (s: WorkflowStatus)
    ensures s.id == id && s.name == name && s.color == color
    ensures isInitial.None? ==> s.isInitial == Some(false) && !IsInitialStatus(s)
    ensures isFinal.None? ==> s.isFinal == Some(false) && !IsFinalStatus(s)
    ensures isInitial.Some? ==> s.isInitial == isInitial.value
    ensures isFinal.Some? ==> s.isFinal == isFinal.value
  {
    WorkflowStatus(
      id, name, color,
      if isInitial.Some? then isInitial.value else Some(false),
      if isFinal.Some? then isFinal.value else Some(false))
  }

  /**
   * `ProjectCreate.validate_key`: at most 10 characters, alphanumeric
   * (which excludes ""), returned upper-cased. The length check comes first.
   */
  function ValidateKey(v: Str): (r: Result<Str>)
    ensures r.Ok? <==> |v| <= 10 && IsAlnum(v)
    ensures |v| > 10 ==> r == Err(ValueError("Project key must be max 10 characters"))
    ensures |v| <= 10 && !IsAlnum(v) ==> r == Err(ValueError("Project key must be alphanumeric"))
    ensures r.Ok? ==> 1 <= |r.value| <= 10 && IsAlnum(r.value)
    ensures r.Ok? ==> IsUpperCased(r.value) && SameIgnoringCase(r.value, v)
  {
    UpperNormalises(v);
    if |v| > 10 then
      Err(ValueError("Project key must be max 10 characters"))
    else if !IsAlnum(v) then
      Err(ValueError("Project key must be alphanumeric"))
    else
      Ok(Upper(v))
  }

  /** The empty key is refused by the alphanumeric check, not by the length check. */
  lemma EmptyKeyNotAlphanumeric()
    ensures ValidateKey([]) == Err(ValueError("Project key must be alphanumeric"))
  {
  }

  /** Validating an accepted key again returns it unchanged. */
  lemma ValidateKeyIdempotent(v: Str)
    requires ValidateKey(v).Ok?
    ensures ValidateKey(ValidateKey(v).value) == ValidateKey(v)
  {
    UpperNormalises(v);
  }
}
