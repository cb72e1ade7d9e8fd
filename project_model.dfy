/**
 * The project table: the key check the ORM runs whenever a project's key is
 * assigned, and the workflow a new project gets in its default settings.
 */
module ProjectModel {
  import opened Text
  import opened ProjectSchema

  /**
   * The `workflow` entry of a project's settings JSON. Each list is `None`
   * when its key is absent.
   */
  datatype WorkflowConfig = WorkflowConfig(
    statuses: Option<seq<WorkflowStatus>>,
    transitions: Option<seq<WorkflowTransition>>)

  /**
   * A non-empty settings JSON object; `workflow` is `None` when the object
   * has other keys but no `workflow` key.
   */
  datatype Settings = Settings(workflow: Option<WorkflowConfig>)

  /** A project; `settings == None` stands for a falsy settings value (`{}` or null). */
  datatype Project = Project(key: Str, settings: Option<Settings>)

  /**
   * `Project.validate_key`: 1 to 10 characters, alphanumeric, returned
   * upper-cased. The length check comes first.
   */
  function ValidateKey(value: Str): (r: Result<Str>)
    ensures r.Ok? <==> 1 <= |value| <= 10 && IsAlnum(value)
    ensures (|value| == 0 || |value| > 10) ==> r == Err(ValueError("Project key must be 1-10 characters"))
    ensures 1 <= |value| <= 10 && !IsAlnum(value) ==> r == Err(ValueError("Project key must be alphanumeric"))
    ensures r.Ok? ==> 1 <= |r.value| <= 10 && IsAlnum(r.value)
    ensures r.Ok? ==> IsUpperCased(r.value) && SameIgnoringCase(r.value, value)
  {
    UpperNormalises(value);
    if |value| == 0 || |value| > 10 then
      Err(ValueError("Project key must be 1-10 characters"))
    else if !IsAlnum(value) then
      Err(ValueError("Project key must be alphanumeric"))
    else
      Ok(Upper(value))
  }

  /** Validating an accepted key again returns it unchanged. */
  lemma ValidateKeyIdempotent(value: Str)
    requires ValidateKey(value).Ok?
    ensures ValidateKey(ValidateKey(value).value) == ValidateKey(value)
  {
    UpperNormalises(value);
  }

  /**
   * The schema and the ORM accept exactly the same keys and return the same
   * value; they differ only in the message for the empty key.
   */
  lemma KeyValidatorsAgree(v: Str)
    ensures ValidateKey(v).Ok? <==> ProjectSchema.ValidateKey(v).Ok?
    ensures ValidateKey(v).Ok? ==> ValidateKey(v).value == ProjectSchema.ValidateKey(v).value
    ensures v == [] ==> ValidateKey(v).error != ProjectSchema.ValidateKey(v).error
  {
  }

  /** A key accepted by the schema passes the ORM check again unchanged when stored. */
  lemma SchemaKeyStoresUnchanged(v: Str)
    requires ProjectSchema.ValidateKey(v).Ok?
    ensures ValidateKey(ProjectSchema.ValidateKey(v).value) == ProjectSchema.ValidateKey(v)
  {
    UpperNormalises(v);
  }

  /** The `id` of every status, in order. */
  function StatusIds(ss: seq<WorkflowStatus>): seq<Str> {
    seq(|ss|, i requires 0 <= i < |ss| => ss[i].id)
  }

  /** The ids of the statuses flagged initial, in order. */
  function InitialIds(ss: seq<WorkflowStatus>): seq<Str> {
    if ss == [] then []
    else (if IsInitialStatus(ss[0]) then [ss[0].id] else []) + InitialIds(ss[1..])
  }

  /** The ids of the statuses flagged final, in order. */
  function FinalIds(ss: seq<WorkflowStatus>): seq<Str> {
    if ss == [] then []
    else (if IsFinalStatus(ss[0]) then [ss[0].id] else []) + FinalIds(ss[1..])
  }

  /** No two statuses share an id. */
  predicate DistinctIds(ss: seq<WorkflowStatus>) {
    forall i, j :: 0 <= i < j < |ss| ==> ss[i].id != ss[j].id
  }

  /** Every id a transition mentions, on either side, is a declared status id. */
  predicate TransitionsDeclared(ss: seq<WorkflowStatus>, ts: seq<WorkflowTransition>) {
    forall t :: t in ts ==>
      t.fromStatus in StatusIds(ss) && forall to :: to in t.toStatuses ==> to in StatusIds(ss)
  }

  /** The transition list has an entry for `id`. */
  predicate HasOutgoing(ts: seq<WorkflowTransition>, id: Str) {
    exists t :: t in ts && t.fromStatus == id
  }

  /** The statuses of the default workflow, flags as the default JSON spells them. */
  function DefaultStatuses(): (ss: seq<WorkflowStatus>)
    ensures StatusIds(ss) == ["open", "in_progress", "in_review", "resolved", "closed"]
    ensures DistinctIds(ss)
    ensures InitialIds(ss) == ["open"]
    ensures FinalIds(ss) == ["closed"]
  {
    [ WorkflowStatus("open", "Open", "#3498db", Some(true), None),
      WorkflowStatus("in_progress", "In Progress", "#f39c12", None, None),
      WorkflowStatus("in_review", "In Review", "#9b59b6", None, None),
      WorkflowStatus("resolved", "Resolved", "#2ecc71", None, None),
      WorkflowStatus("closed", "Closed", "#95a5a6", None, Some(true)) ]
  }

  /** The `from` id of every transition, in order. */
  function FromIds(ts: seq<WorkflowTransition>): seq<Str> {
    seq(|ts|, i requires 0 <= i < |ts| => ts[i].fromStatus)
  }

  /**
   * The transitions of the default workflow: one entry for each status but
   * the last, "closed", in the order the statuses are declared.
   */
  function DefaultTransitions(): (ts: seq<WorkflowTransition>)
    ensures FromIds(ts) == StatusIds(DefaultStatuses())[..4]
  {
    [ WorkflowTransition("open", ["in_progress", "closed"]),
      WorkflowTransition("in_progress", ["in_review", "open"]),
      WorkflowTransition("in_review", ["resolved", "in_progress"]),
      WorkflowTransition("resolved", ["closed", "in_review"]) ]
  }

  /** Every `from` and `to` id of the default transitions names a declared status. */
  lemma DefaultTransitionsDeclared()
    ensures TransitionsDeclared(DefaultStatuses(), DefaultTransitions())
  {
    var ts := DefaultTransitions();
    var ids := StatusIds(DefaultStatuses());
    forall t | t in ts
      ensures t.fromStatus in ids && forall to :: to in t.toStatuses ==> to in ids
    {
      assert t == ts[0] || t == ts[1] || t == ts[2] || t == ts[3];
    }
  }

  /** "closed", the only final status, has no transition entry. */
  lemma ClosedIsDeadEnd()
    ensures !HasOutgoing(DefaultTransitions(), "closed")
  {
    var ts := DefaultTransitions();
    forall t | t in ts ensures t.fromStatus != "closed" {
      assert t == ts[0] || t == ts[1] || t == ts[2] || t == ts[3];
    }
  }

  /** Every other default status has a transition entry. */
  lemma OthersHaveOutgoing()
    ensures forall id :: id in StatusIds(DefaultStatuses()) && id != "closed" ==> HasOutgoing(DefaultTransitions(), id)
  {
    var ts := DefaultTransitions();
    var ids := StatusIds(DefaultStatuses());
    forall id | id in ids && id != "closed" ensures HasOutgoing(ts, id) {
      assert id == ts[0].fromStatus || id == ts[1].fromStatus || id == ts[2].fromStatus || id == ts[3].fromStatus;
      assert ts[0] in ts && ts[1] in ts && ts[2] in ts && ts[3] in ts;
    }
  }

  /**
   * The `workflow` entry of the default project settings: both lists are
   * present, one status is initial and one final, and every transition
   * names declared statuses.
   */
  function DefaultWorkflow(): (w: WorkflowConfig)
    ensures w.statuses.Some? && w.transitions.Some?
    ensures InitialIds(w.statuses.value) == ["open"] && FinalIds(w.statuses.value) == ["closed"]
    ensures TransitionsDeclared(w.statuses.value, w.transitions.value)
  {
    DefaultTransitionsDeclared();
    WorkflowConfig(Some(DefaultStatuses()), Some(DefaultTransitions()))
  }

  /**
   * The settings a project gets when none are given (issue types and
   * priorities not modelled): a workflow with the five default statuses, so
   * the status check is in force from the start.
   */
  function DefaultSettings(): (s: Settings)
    ensures s.workflow.Some? && s.workflow.value.statuses.Some?
    ensures StatusIds(s.workflow.value.statuses.value) == ["open", "in_progress", "in_review", "resolved", "closed"]
  {
    Settings(Some(DefaultWorkflow()))
  }
}
