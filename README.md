# Issue-tracker field validators and project workflow, in Dafny

This project models the logic in the data layer of an issue tracker. The
layer has SQLAlchemy tables and Pydantic input schemas for users, projects,
issues, comments and attachments. Almost all of it is declarations. The
behaviour is in a few pure field validators, the project's default workflow,
and the table check constraints. Each validator becomes a total Dafny
function from its input to `Ok(value)` or `Err(failure)`. `Err` stands for
the `ValueError` the validator raises. Lemmas relate each validator to its
partner: the table constraint it protects, the twin validator in the other
layer, or its own second application (idempotence).

One module per source file:

- `Text`: Python `str` restricted to ASCII (`Str`). It also defines the ASCII
  meaning of `isalnum`, `upper`, `lower`, `isspace` and `strip`, and the
  `Result` and `Failure` types.
- `ProjectSchema`: the workflow record types and `ProjectCreate.validate_key`.
- `ProjectModel`: `Project.validate_key` and the default workflow in
  `settings`, with facts about its well-formedness.
- `IssueModel`: `Issue.validate_status`, the stored `is_closed` column, the
  default status and the table checks.
- `IssueSchema`: the title, hours and link-target validators.
- `UserModel`: the email pattern, decided by a scan that is proved equal to
  the pattern's language.
- `UserSchema`: the username and password validators.
- `AttachmentModel` and `AttachmentSchema`: the 50 MiB size cap and the
  attachment checks.
- `CommentSchema`: the comment content check and the `CommentCreate` defaults.
- `BaseSchema`: `PaginationParams` defaults and the `per_page` cap.

The status check only tests membership in the project's list of status ids.
No code here reads the `transitions` list. So the model states facts about
the default transition table, such as which ids it names and which status
has no outgoing entry. It does not present transition legality as something
the system enforces: no code here loads a workflow, checks it on loading, or
checks that a status change follows a transition.

The default settings spell a transition as `{"from": …, "to": […]}`. The
`WorkflowTransition` schema names the same fields `from_status` and
`to_statuses`. The settings are typed only as a dictionary, so no code
reconciles the two names. The model reads both as one `WorkflowTransition`.

## Model

| member | source | states |
|---|---|---|
| `Text.UpperNormalises` | backend/app/models/project.py:65 | On ASCII, `upper()` keeps the length, leaves no lower-case letter, changes only case, is idempotent and keeps `isalnum` |
| `Text.LowerNormalises` | backend/app/models/user.py:45 | On ASCII, `lower()` keeps the length, leaves no upper-case letter, changes only case, is idempotent and keeps `isalnum` |
| `Text.StripEmptyIffBlank` | backend/app/schemas/comment.py:19 | `len(v.strip()) == 0` holds exactly when every character of `v` is whitespace, including when `v` is "" |
| `ProjectSchema.NewWorkflowStatus` | backend/app/schemas/project.py:11-16 | An omitted `is_initial` or `is_final` becomes `False`, so the status is neither initial nor final; a given flag is kept |
| `ProjectSchema.ValidateKey` | backend/app/schemas/project.py:47-53 | Accepts exactly the alphanumeric keys of at most 10 characters, so not ""; the length error wins for long keys; the result is the key upper-cased, 1-10 alphanumeric characters |
| `ProjectSchema.EmptyKeyNotAlphanumeric` | backend/app/schemas/project.py:51-52 | The empty key is refused with the alphanumeric message |
| `ProjectSchema.ValidateKeyIdempotent` | backend/app/schemas/project.py:47-53 | Validating an accepted key again returns the same result |
| `ProjectModel.ValidateKey` | backend/app/models/project.py:59-65 | Accepts exactly the alphanumeric keys of 1-10 characters; "" and long keys get the length error first; the result is upper-cased and the same key up to case |
| `ProjectModel.ValidateKeyIdempotent` | backend/app/models/project.py:59-65 | Validating a stored key again returns it unchanged |
| `ProjectModel.KeyValidatorsAgree` | backend/app/models/project.py:59-65 | The table's check and `ProjectCreate.validate_key` accept the same keys with the same result; for "" their messages differ |
| `ProjectModel.SchemaKeyStoresUnchanged` | backend/app/models/project.py:59-65 | A key accepted by the schema passes the table's check unchanged when stored |
| `ProjectModel.DefaultStatuses` | backend/app/models/project.py:21-27 | The default ids are open, in_progress, in_review, resolved and closed, all distinct; exactly one is initial ("open") and exactly one is final ("closed") |
| `ProjectModel.DefaultTransitions` | backend/app/models/project.py:28-33 | The default transitions have one entry for each status but "closed", in the order the statuses are declared |
| `ProjectModel.DefaultWorkflow` | backend/app/models/project.py:20-34 | The default `workflow` entry has both lists; "open" is its one initial status and "closed" its one final status; every transition names declared statuses |
| `ProjectModel.DefaultSettings` | backend/app/models/project.py:19-48 | A project created without settings gets a workflow whose status ids are the five defaults, so the status check applies from the start |
| `ProjectModel.DefaultTransitionsDeclared` | backend/app/models/project.py:28-33 | Every `from` and `to` id in the default transitions names a declared status |
| `ProjectModel.ClosedIsDeadEnd` | backend/app/models/project.py:26-33 | "closed", the only final status, has no transition entry |
| `ProjectModel.OthersHaveOutgoing` | backend/app/models/project.py:28-33 | Every default status other than "closed" has a transition entry |
| `IssueModel.ValidateStatus` | backend/app/models/issue.py:97-103 | With no project, falsy settings or an empty or missing status list, every status passes. Otherwise a status passes exactly when some configured status has it as `id`, and a refusal carries the id list. An accepted status is returned unchanged |
| `IssueModel.ValidIdsAreStatusIds` | backend/app/models/issue.py:100 | The valid-id list is the `id` of each configured status, in order |
| `IssueModel.DefaultStatus` | backend/app/models/issue.py:42 | The column default "open" is the one status the default workflow flags as initial |
| `IssueModel.IsClosed` | backend/app/models/issue.py:53-62 | `is_closed` is true exactly for the statuses "closed" and "resolved" |
| `IssueModel.IsClosedIgnoresFinalFlag` | backend/app/models/issue.py:53-62 | In the default workflow "resolved" is closed but not final; every final status is closed |
| `IssueModel.DefaultStatusIsInitial` | backend/app/models/issue.py:42 | The default status "open" is the one initial status of the default workflow; it is not closed; the status check accepts it under the default settings |
| `IssueModel.DefaultSettingsRejectUnknown` | backend/app/models/issue.py:99-102 | Under the default settings, a status outside the five default ids is refused, and the refusal lists those five ids |
| `IssueModel.EstimateHoursCheck` | backend/app/models/issue.py:92 | `check_estimate_hours` passes a NULL estimate, and an estimate exactly when it is at least 0 |
| `IssueModel.SpentHoursCheck` | backend/app/models/issue.py:93 | `check_spent_hours` passes NULL (the column is nullable, and a CHECK passes when its condition is NULL), and a value exactly when it is at least 0 |
| `IssueModel.NoSelfLinkCheck` | backend/app/models/issue.py:128 | `check_no_self_link` passes exactly when the source and target issues differ |
| `IssueModel.DefaultHoursSatisfyChecks` | backend/app/models/issue.py:92-93 | No estimate and 0 spent hours satisfy the hour checks; -1 violates both |
| `IssueSchema.ValidateTitle` | backend/app/schemas/issue.py:45-51 | Accepts exactly titles of 5-500 characters, unchanged; a short title and a long title get their own messages |
| `IssueSchema.ValidateEstimate` | backend/app/schemas/issue.py:53-57 | Accepts exactly `None` and non-negative values, unchanged |
| `IssueSchema.ValidateSpentHours` | backend/app/schemas/issue.py:71-75 | Accepts exactly `None` and non-negative values, unchanged |
| `IssueSchema.HourValidatorsMatchTableChecks` | backend/app/models/issue.py:92-93 | Each hours validator accepts exactly the values its table check admits |
| `IssueSchema.TitleFitsColumn` | backend/app/schemas/issue.py:45-51 | An accepted title fits the 500-character column and validates again unchanged |
| `IssueSchema.ValidateTargetIssue` | backend/app/schemas/issue.py:95-99 | As written, the target is refused exactly when the already-validated data holds an equal `source_issue_id` |
| `IssueSchema.LinkCreateDataBeforeTarget` | backend/app/schemas/issue.py:91-94 | For every request body, the data validated before `target_issue_id` holds only declared fields taken from the body, and never `source_issue_id` |
| `IssueSchema.SelfLinkPassesAsWritten` | backend/app/schemas/issue.py:91-99 | Whatever the request body, even one sending an equal `source_issue_id`, a link from an issue to itself passes the schema; only `check_no_self_link` refuses it |
| `IssueSchema.ValidateLinkTarget` | backend/app/models/issue.py:128 | Corrected check: refuses exactly the links `check_no_self_link` refuses |
| `UserModel.ScanPatternCorrect` | backend/app/models/user.py:43 | The scan (first `@`, last dot) accepts exactly the strings of the email pattern's language |
| `UserModel.Matches` | backend/app/models/user.py:43 | Decides whether `re.match` of the pattern succeeds, with `$` allowing one final line feed |
| `UserModel.ValidateEmail` | backend/app/models/user.py:41-45 | Accepts exactly the addresses the pattern matches, else "Invalid email format"; the result is lower-cased and the same address up to case |
| `UserModel.LowerKeepsMatch` | backend/app/models/user.py:43-45 | An address matches exactly when its lower-cased form does |
| `UserModel.ValidateEmailIdempotent` | backend/app/models/user.py:41-45 | Validating a stored address again returns it unchanged |
| `UserModel.AcceptedHasOneAt` | backend/app/models/user.py:43 | A stored address contains exactly one `@` |
| `UserModel.TrailingNewlineKept` | backend/app/models/user.py:43-45 | One trailing line feed is tolerated and kept in the stored value; two are refused |
| `UserModel.Examples` | backend/app/models/user.py:43-45 | "Ann@Mail.IO" is stored as "ann@mail.io"; "a@b.c" is refused because its last part has one letter |
| `UserSchema.ValidateUsername` | backend/app/schemas/user.py:25-31 | Accepts exactly alphanumeric names of at least 3 characters; the length error comes first; the result is lower-cased and the same name up to case |
| `UserSchema.ValidateUsernameIdempotent` | backend/app/schemas/user.py:25-31 | Validating an accepted username again returns the same result |
| `UserSchema.ValidatePassword` | backend/app/schemas/user.py:33-37 | Accepts exactly passwords of at least 8 characters, unchanged |
| `UserSchema.ValidateNewPassword` | backend/app/schemas/user.py:61-65 | Accepts exactly new passwords of at least 8 characters, unchanged |
| `UserSchema.PasswordRulesAgree` | backend/app/schemas/user.py:61-65 | A password change applies exactly the sign-up rule |
| `UserSchema.ValidateUpdateUsername` | backend/app/schemas/user.py:46-50 | `None` and "" pass unchanged; 1-2 characters are refused; a longer name is lower-cased, with no alphanumeric check |
| `UserSchema.UpdateAcceptsCreatedUsernames` | backend/app/schemas/user.py:46-50 | Every username accepted at creation is accepted on update with the same stored value |
| `UserSchema.UpdateAcceptsMoreThanCreate` | backend/app/schemas/user.py:46-50 | An update accepts "" and "a-b", both refused at creation |
| `AttachmentModel.ValidateSize` | backend/app/models/attachment.py:52-57 | Accepts exactly sizes of at most 52,428,800 bytes, unchanged, with no lower bound |
| `AttachmentModel.AttachmentReferenceCheck` | backend/app/models/attachment.py:42-45 | `check_attachment_reference` holds exactly when one of `issue_id` and `comment_id` is set |
| `AttachmentModel.PositiveSizeCheck` | backend/app/models/attachment.py:46 | `check_positive_size` holds exactly for sizes of at least one byte |
| `AttachmentModel.SizeBounds` | backend/app/models/attachment.py:46-57 | 52,428,800 passes and one byte more fails; 0 and -1 pass the validator but fail `check_positive_size` |
| `AttachmentModel.StorableSizes` | backend/app/models/attachment.py:46-57 | A size passes both the validator and the positive-size check exactly when it is 1-52,428,800 |
| `AttachmentSchema.ValidateSize` | backend/app/schemas/attachment.py:26-31 | Accepts exactly sizes of at most 52,428,800, unchanged; 0 and negative sizes pass |
| `AttachmentSchema.SizeValidatorsAgree` | backend/app/schemas/attachment.py:26-31 | The schema and table validators give the same result on every size |
| `CommentSchema.ValidateContent` | backend/app/schemas/comment.py:17-21 | Accepts exactly content with a non-whitespace character, returned unstripped |
| `CommentSchema.NewCommentCreate` | backend/app/schemas/comment.py:12-21 | A comment is built exactly when its content has a non-whitespace character; `is_internal` defaults to false and `attachments` to [] |
| `CommentSchema.ContentExamples` | backend/app/schemas/comment.py:19-21 | "" and " \t\n" are refused; " ok " is accepted as given |
| `BaseSchema.ValidatePerPage` | backend/app/schemas/base.py:23-27 | Accepts exactly `per_page` values of at most 100, unchanged |
| `BaseSchema.NewPaginationParams` | backend/app/schemas/base.py:17-27 | Defaults are page 1, 50 per page, no order field and "desc". Only a given `per_page` is validated. Every result has `per_page` at most 100 |
| `BaseSchema.PerPageBounds` | backend/app/schemas/base.py:25 | 100 passes and 101 fails; 0 and negative values pass |
| `BaseSchema.DefaultsWithinCap` | backend/app/schemas/base.py:18-21 | With no fields given, the defaults apply, and the default 50 is within the cap |

## Findings

| source | as written | input that shows it | evidently intended | confidence | as-written member | corrected member |
|---|---|---|---|---|---|---|
| backend/app/schemas/issue.py:95-99 | `validate_target_issue` refuses the target only when `info.data` has a `source_issue_id`. `IssueLinkCreate` declares no such field, so one sent in the request body is dropped, and `target_issue_id` is its first field, so `info.data` is empty | any link whose target equals its source: it passes the schema and fails only at the table's `check_no_self_link` | the schema refuses a link from an issue to itself | not executed; high | `IssueSchema.SelfLinkPassesAsWritten` (on `IssueSchema.ValidateTargetIssue`) | `IssueSchema.ValidateLinkTarget` |

## Left out

- Strings are ASCII only (`Text.Str`). For other characters Python's `upper()` and `lower()` can change the length (`'ß'.upper() == 'SS'`), and `isalnum()` and `isspace()` accept characters of other scripts. None of that is modelled.
- Transition legality, initial-status assignment and final-status meaning are not modelled, because no code here enforces them. The status check tests membership only.
- IssueModel.ValidateStatus: a configured status without an `id` key (a `KeyError` in the source) and settings of any other JSON shape are not modelled; the settings are typed records.
- IssueModel.ValidateStatus: the refusal carries the list of valid ids, not the text the f-string renders from it.
- ProjectModel.ValidateKey: a `None` key (also refused by the source's `not value` test) is not modelled; the key is a string.
- UserModel.ValidateEmail: a `None` email, on which `re.match` raises `TypeError`, is not modelled; the email is a string.
- AttachmentModel.ValidateSize: a `None` size, on which the `>` comparison raises `TypeError`, is not modelled; the size is an integer.
- Integer column widths are not modelled. The hours columns are 32-bit and `size_bytes` is 64-bit; hours and sizes are unbounded `int`, as Python's are.
- The `issue_types` and `priorities` entries of the default settings are not modelled. They are display data that no code reads.
- `EmailStr` in the user schemas is a library validator whose code is not part of this model.
- Persistence is not modelled: the database engine and sessions, id generation, timestamps, relationships, cascades, indexes, partitioning, uniqueness of keys and emails, and string-length limits enforced by the database.
- Setting `closed_at` when an issue closes is the caller's job, not code in this layer, so it is not modelled.
- Names that the source uses without importing would fail when the module loads. For example: `func` and `DateTime` in the issue, project, attachment and user models, `Enum` in the project model, `Text` and `Index` in the attachment model, and `field_validator`, `Dict` and `Any` in the comment schema. They are not logic, so they are not modelled.
