/**
 * The issue table: the status check the ORM runs whenever an issue's status
 * is assigned, the stored `is_closed` column derived from the status, the
 * default status of a new issue, and the table's check constraints on hours
 * and on issue links.
 */
module IssueModel {
  import opened Text
  import opened ProjectSchema
  import opened ProjectModel

  /**
   * The status a new issue gets when none is given: the one status the
   * default workflow flags as initial.
   */
  function DefaultStatus(): (status: Str)
    ensures InitialIds(DefaultStatuses()) == [status]
  {
    "open"
  }

  /**
   * The statuses of the project's workflow as the check reads them:
   * `settings.get('workflow', {}).get('statuses', [])`.
   */
  function ConfiguredStatuses(settings: Settings): seq<WorkflowStatus> {
    match settings.workflow
    case None => []
    case Some(w) => if w.statuses.Some? then w.statuses.value else []
  }

  /**
   * True when the check lets every status through: no project, falsy
   * settings, or no (or an empty) status list.
   */
  predicate StatusCheckSkipped(project: Option<Project>) {
    project.None? || project.value.settings.None?
    || ConfiguredStatuses(project.value.settings.value) == []
  }

  /**
   * `Issue.validate_status`: an accepted status is returned unchanged; unless
   * the check is skipped, a status is accepted exactly when some configured
   * status has it as its id, and a rejection lists the configured ids.
   */
  function ValidateStatus(project: Option<Project>, status: Str): (r: Result<Str>)
    ensures r.Ok? ==> r.value == status
    ensures StatusCheckSkipped(project) ==> r.Ok?
    ensures !StatusCheckSkipped(project) ==>
      (r.Ok? <==> exists s :: s in ConfiguredStatuses(project.value.settings.value) && s.id == status)
    ensures r.Err? ==> r.error == InvalidStatus(StatusIds(ConfiguredStatuses(project.value.settings.value)))
  {
    if project.Some? && project.value.settings.Some? then
      var statuses := ConfiguredStatuses(project.value.settings.value);
      var validStatuses := StatusIds(statuses);
      if validStatuses != [] && status !in validStatuses then
        assert forall s :: s in statuses ==> s.id in validStatuses by {
          forall s | s in statuses ensures s.id in validStatuses {
            var i :| 0 <= i < |statuses| && statuses[i] == s;
            assert validStatuses[i] == s.id;
          }
        }
        Err(InvalidStatus(validStatuses))
      else
        assert status in validStatuses ==> exists s :: s in statuses && s.id == status by {
          if status in validStatuses {
            var i :| 0 <= i < |validStatuses| && validStatuses[i] == status;
            assert statuses[i] in statuses;
          }
        }
        Ok(status)
    else
      Ok(status)
  }

  /** The valid-status list holds the configured ids, one per status, in order. */
  lemma ValidIdsAreStatusIds(settings: Settings)
    ensures |StatusIds(ConfiguredStatuses(settings))| == |ConfiguredStatuses(settings)|
    ensures forall i :: 0 <= i < |ConfiguredStatuses(settings)| ==>
      StatusIds(ConfiguredStatuses(settings))[i] == ConfiguredStatuses(settings)[i].id
  {
  }

  /**
   * The stored `is_closed` column: `CASE WHEN status IN ('closed', 'resolved')
   * THEN true ELSE false END`. It reads the status string only.
   */
  predicate IsClosed(status: Str): (closed: bool)
    ensures closed <==> status == "closed" || status == "resolved"
  {
    status in ["closed", "resolved"]
  }

  /**
   * `is_closed` ignores the workflow's `is_final` flags: in the default
   * workflow "resolved" is closed without being final, and "closed" is the
   * only status that is both.
   */
  lemma IsClosedIgnoresFinalFlag()
    ensures IsClosed("resolved") && "resolved" in StatusIds(DefaultStatuses())
    ensures "resolved" !in FinalIds(DefaultStatuses())
    ensures forall s :: s in DefaultStatuses() && IsFinalStatus(s) ==> IsClosed(s.id)
  {
    var ss := DefaultStatuses();
    forall s | s in ss && IsFinalStatus(s) ensures IsClosed(s.id) {
      assert s == ss[0] || s == ss[1] || s == ss[2] || s == ss[3] || s == ss[4];
    }
  }

  /**
   * A new issue's default status is the default workflow's one initial
   * status, it is not closed, and the status check accepts it for a project
   * with the default settings.
   */
  lemma DefaultStatusIsInitial(key: Str)
    ensures InitialIds(DefaultStatuses()) == [DefaultStatus()]
    ensures !IsClosed(DefaultStatus())
    ensures ValidateStatus(Some(Project(key, Some(DefaultSettings()))), DefaultStatus()) == Ok(DefaultStatus())
  {
    var ss := DefaultStatuses();
    assert ss[0] in ss && ss[0].id == DefaultStatus();
  }

  /** With the default settings, a status outside the five default ids is refused. */
  lemma DefaultSettingsRejectUnknown(key: Str, status: Str)
    requires status !in StatusIds(DefaultStatuses())
    ensures ValidateStatus(Some(Project(key, Some(DefaultSettings()))), status)
      == Err(InvalidStatus(["open", "in_progress", "in_review", "resolved", "closed"]))
  {
  }

  /**
   * `check_estimate_hours`, `estimate_hours >= 0`: a SQL CHECK passes when
   * its condition is NULL, so a missing estimate passes.
   */
  predicate EstimateHoursCheck(estimate: Option<int>): (ok: bool)
    ensures estimate.None? ==> ok
    ensures estimate.Some? ==> (ok <==> estimate.value >= 0)
  {
    match estimate
    case None => true
    case Some(hours) => hours >= 0
  }

  /** `check_spent_hours`, `spent_hours >= 0`: the column is nullable, so NULL passes as well. */
  predicate SpentHoursCheck(spent: Option<int>): (ok: bool)
    ensures spent.None? ==> ok
    ensures spent.Some? ==> (ok <==> spent.value >= 0)
  {
    match spent
    case None => true
    case Some(hours) => hours >= 0
  }

  /** `check_no_self_link`: an issue link joins two different issues. */
  predicate NoSelfLinkCheck(source: Uuid, target: Uuid): (ok: bool)
    ensures ok <==> source != target
  {
    source != target
  }

  /** A new issue's default hours, no estimate and 0 spent, satisfy both hour checks. */
  lemma DefaultHoursSatisfyChecks()
    ensures EstimateHoursCheck(None) && SpentHoursCheck(Some(0))
    ensures !SpentHoursCheck(Some(-1)) && !EstimateHoursCheck(Some(-1))
  {
  }
}
