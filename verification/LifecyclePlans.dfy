/**
 The planners: each turns a lifecycle state and a request into a plan bound to that state's
 revision and digest, or refuses. Constructor checks run exactly where the code runs them and
 fail with `Broken`, so "the checks never fire" is the claim that no planner answers `Broken`.
 */
module LifecyclePlans {
  import opened Wrappers
  import opened Text
  import opened Lifecycle
  import opened LifecycleCodec

  datatype Refusal =
    | Malformed   // an argument is not a valid identifier, time, record or grant
    | Transition  // LifecycleTransitionError
    | Conflict    // LifecycleConflictError
    | Broken      // a constructor or map lookup failed on the way to the candidate

  type Planned<+T> = Result<T, Refusal>

  datatype Plan = Plan(
    operation: string, expectedRevision: int, beforeDigest: Digest, afterDigest: Digest,
    after: LifecycleState, noOp: bool)
  {
    // The plan's own constructor.
    predicate Ok() {
      && expectedRevision >= 0
      && afterDigest == StateDigest(after)
      && if noOp then after.revision == expectedRevision && beforeDigest == afterDigest
         else after.revision == expectedRevision + 1 && beforeDigest != afterDigest
    }
  }

  datatype Request =
    | RecordDraft(record: DraftRecord)
    | TransitionDraft(draftId: string, target: DraftState, now: real, item: Option<Evidence>)
    | RejectDraft(draftId: string, now: real, evidence: Evidence)
    | ApproveDraft(draftId: string, now: real, expectedDigest: Option<string>)
    | ActivateVersion(bundleId: string, digest: string, now: real)
    | ActivateFromDraft(draftId: string, now: real, expectedDigest: Option<string>)
    | Deactivate(bundleId: string, now: real)
    | Rollback(bundleId: string, digest: string, now: real)
    | SetPermission(bundleId: string, digest: string, tool: string, allowUser: bool, approvedBy: Option<string>,
      now: real)
    | Archive(bundleId: string, digest: string, now: real)

  function Operation(r: Request): string {
    match r
    case RecordDraft(_) => "record_draft"
    case TransitionDraft(_, _, _, _) => "transition_draft"
    case RejectDraft(_, _, _) => "reject_draft"
    case ApproveDraft(_, _, _) => "approve_draft"
    case ActivateVersion(_, _, _) => "activate_version"
    case ActivateFromDraft(_, _, _) => "activate_from_draft"
    case Deactivate(_, _) => "deactivate"
    case Rollback(_, _, _) => "rollback"
    case SetPermission(_, _, _, _, _, _) => "permission"
    case Archive(_, _, _) => "archive"
  }

  function MakePlan(before: LifecycleState, operation: string, candidate: LifecycleState): Planned<Plan> {
    var noOp := StateDigest(candidate) == StateDigest(before);
    :- Need(candidate.WellFormed() && candidate.revision == before.revision, Broken);
    var after := if noOp then candidate else candidate.(revision := before.revision + 1);
    var plan := Plan(operation, before.revision, StateDigest(before), StateDigest(after), after, noOp);
    :- Need(after.WellFormed() && plan.Ok(), Broken);
    Ok(plan)
  }

  // `_transition_timestamp`: a time may not lie before an earlier life-cycle time.
  predicate NotEarlier(now: real, previous: OptTime) {
    previous.Some? ==> previous.value <= now
  }

  /* ---------- drafts ---------- */

  /** The transitions a draft may take one at a time. */
  predicate Follows(from: DraftState, to: DraftState) {
    match from
    case Draft => to.StaticValidated? || to.ValidationFailed? || to.Rejected?
    case StaticValidated => to.SandboxTested? || to.TestFailed? || to.Rejected?
    case SandboxTested => to.ModelReviewed? || to.ReviewFailed? || to.Rejected?
    case ModelReviewed => to.AwaitingApproval? || to.ReviewFailed? || to.Rejected?
    case AwaitingApproval => to.Rejected?
    case _ => false
  }

  function FindDraft(s: LifecycleState, draftId: string): Planned<DraftRecord> {
    if !IsDraftId(draftId) then Err(Malformed)
    else if draftId !in s.drafts then Err(Transition)
    else Ok(s.drafts[draftId])
  }

  function SetDraft(s: LifecycleState, draftId: string, r: DraftRecord): LifecycleState {
    s.(drafts := s.drafts[draftId := r])
  }

  function Advance(r: DraftRecord, target: DraftState, now: real, item: Option<Evidence>): DraftRecord {
    r.(state := target, updatedAt := now, evidence := if item.Some? then r.evidence + [item.value] else r.evidence)
  }

  function CandidateRecord(s: LifecycleState, record: DraftRecord): Planned<LifecycleState> {
    if !record.Ok() then Err(Malformed)
    else if !record.state.Draft? then Err(Transition)
    else if record.draftId in s.drafts && s.drafts[record.draftId] != record then Err(Conflict)
    else Ok(SetDraft(s, record.draftId, record))
  }

  function CheckTransition(record: DraftRecord, target: DraftState, now: real, item: Option<Evidence>): Check<Refusal> {
    if !Follows(record.state, target) || target.Approved? then Fail(Transition)
    else if item.Some? && !item.value.Ok() then Fail(Malformed)
    else if TakesEvidence(target) != item.Some? then Fail(Transition)
    else if item.Some? && (item.value.state != target || item.value.draftDigest != record.digest) then Fail(Transition)
    else if now < 0.0 then Fail(Malformed)
    else if now < record.updatedAt || (item.Some? && item.value.recordedAt != now) then Fail(Transition)
    else Pass
  }

  function CandidateTransition(
    s: LifecycleState, draftId: string, target: DraftState, now: real, item: Option<Evidence>): Planned<LifecycleState>
  {
    var record :- FindDraft(s, draftId);
    if record.state == target then
      :- Need(TakesEvidence(target) ==> target in EvidenceStates(record.evidence), Transition);
      Ok(s)
    else
      :- CheckTransition(record, target, now, item);
      Ok(SetDraft(s, draftId, Advance(record, target, now, item)))
  }

  function CheckRejection(record: DraftRecord, now: real, evidence: Evidence): Check<Refusal> {
    if !evidence.Ok() then Fail(Malformed)
    else if !evidence.state.Rejected? || evidence.draftDigest != record.digest then Fail(Transition)
    else if now < 0.0 then Fail(Malformed)
    else if now < record.updatedAt || evidence.recordedAt != now then Fail(Transition)
    else Pass
  }

  function CandidateReject(s: LifecycleState, draftId: string, now: real, evidence: Evidence): Planned<LifecycleState> {
    var record :- FindDraft(s, draftId);
    :- Need(!record.state.Approved?, Transition);
    if record.state.Rejected? then
      :- Need(DraftState.Rejected in EvidenceStates(record.evidence), Transition);
      Ok(s)
    else
      :- CheckRejection(record, now, evidence);
      Ok(SetDraft(s, draftId, Advance(record, DraftState.Rejected, now, Some(evidence))))
  }

  /* ---------- versions ---------- */

  function NewVersion(record: DraftRecord, state: VersionState, now: real): VersionRecord {
    VersionRecord(record.bundleId, record.digest, state, Some(record.draftId), now, now,
                  if state.Activated? then Some(now) else None, None, None)
  }

  function CandidateApprove(
    s: LifecycleState, draftId: string, now: real, expected: Option<string>): Planned<LifecycleState>
  {
    var record :- FindDraft(s, draftId);
    :- Need(expected.Some? ==> expected.value == record.digest, Conflict);
    var existing := s.Version(record.bundleId, record.digest);
    if record.state.Approved? && existing.Some? then Ok(s)
    else
      :- Need(record.state.AwaitingApproval?, Transition);
      :- Need(existing.Some? ==> !existing.value.state.Archived?, Transition);
      :- Need(now >= 0.0, Malformed);
      :- Need(record.updatedAt <= now, Transition);
      var versions := if existing.Some? then s.versions
                      else SetVersion(s.versions, NewVersion(record, VersionState.Approved, now));
      Ok(SetDraft(s, draftId, Advance(record, DraftState.Approved, now, None)).(versions := versions))
  }

  function Demoted(v: VersionRecord, now: real): VersionRecord {
    v.(state := VersionState.Deprecated, deprecatedAt := Some(now), archivedAt := None)
  }

  // Deprecates the version a bundle currently runs.
  function Demote(versions: Versions, active: map<string, string>, bundleId: string, now: real): Planned<Versions> {
    if bundleId !in active then Ok(versions)
    else
      var previous := Find(versions, bundleId, active[bundleId]);
      :- Need(previous.Some?, Broken);
      var p := previous.value;
      :- Need(NotEarlier(now, p.activatedAt) && NotEarlier(now, p.deprecatedAt), Transition);
      Ok(SetVersion(versions, Demoted(p, now)))
  }

  function Promote(v: VersionRecord, now: real): VersionRecord {
    v.(state := VersionState.Activated, activatedAt := Some(now), deprecatedAt := None, archivedAt := None)
  }

  predicate TimeAllows(v: VersionRecord, now: real) {
    v.approvedAt <= now && NotEarlier(now, v.activatedAt) && NotEarlier(now, v.deprecatedAt)
  }

  function CandidateActivate(s: LifecycleState, bundleId: string, digest: string, now: real): Planned<LifecycleState> {
    var found := s.Version(bundleId, digest);
    :- Need(IsName(bundleId) && IsDigest(digest), Malformed);
    :- Need(found.Some?, Transition);
    var target := found.value;
    :- Need(!target.state.Archived?, Transition);
    if bundleId in s.active && s.active[bundleId] == digest then Ok(s)
    else
      :- Need(target.state.Approved? || target.state.Deprecated?, Transition);
      :- Need(now >= 0.0, Malformed);
      :- Need(TimeAllows(target, now), Transition);
      var demoted :- Demote(s.versions, s.active, bundleId, now);
      Ok(s.(versions := SetVersion(demoted, Promote(target, now)), active := s.active[bundleId := digest]))
  }

  // Unlike activation, rollback does not test the target's state again.
  function CandidateRollback(s: LifecycleState, bundleId: string, digest: string, now: real): Planned<LifecycleState> {
    var found := s.Version(bundleId, digest);
    :- Need(IsName(bundleId) && IsDigest(digest), Malformed);
    :- Need(found.Some?, Transition);
    var target := found.value;
    :- Need(!target.state.Archived?, Transition);
    if bundleId in s.active && s.active[bundleId] == digest then Ok(s)
    else
      :- Need(now >= 0.0, Malformed);
      :- Need(TimeAllows(target, now), Transition);
      var demoted :- Demote(s.versions, s.active, bundleId, now);
      Ok(s.(versions := SetVersion(demoted, Promote(target, now)), active := s.active[bundleId := digest]))
  }

  function CandidateActivateDraft(
    s: LifecycleState, draftId: string, now: real, expected: Option<string>): Planned<LifecycleState>
  {
    var record :- FindDraft(s, draftId);
    :- Need(expected.Some? ==> expected.value == record.digest, Conflict);
    var existing := s.Version(record.bundleId, record.digest);
    var running := record.bundleId in s.active && s.active[record.bundleId] == record.digest;
    if record.state.Approved? then
      :- Need(running && existing.Some? && existing.value.state.Activated?, Transition);
      Ok(s)
    else
      :- Need(record.state.AwaitingApproval?, Transition);
      :- Need(now >= 0.0, Malformed);
      :- Need(record.updatedAt <= now, Transition);
      :- Need(existing.Some? ==> !existing.value.state.Archived?, Transition);
      var demoted :- if running then Ok(s.versions) else Demote(s.versions, s.active, record.bundleId, now);
      var target :- ActivatedTarget(record, existing, now);
      Ok(SetDraft(s, draftId, Advance(record, DraftState.Approved, now, None)).(
        versions := SetVersion(demoted, target),
        active := s.active[record.bundleId := record.digest]))
  }

  function ActivatedTarget(record: DraftRecord, existing: Option<VersionRecord>, now: real): Planned<VersionRecord> {
    match existing
    case None => Ok(NewVersion(record, VersionState.Activated, now))
    case Some(v) =>
      if v.state.Activated? then Ok(v)
      else
        :- Need(TimeAllows(v, now), Transition);
        Ok(Promote(v, now).(sourceDraftId := if v.sourceDraftId.Some? then v.sourceDraftId else Some(record.draftId)))
  }

  function CandidateDeactivate(s: LifecycleState, bundleId: string, now: real): Planned<LifecycleState> {
    if !IsName(bundleId) then Err(Malformed)
    else if bundleId !in s.active then Ok(s)
    else
      :- Need(now >= 0.0, Malformed);
      var demoted :- Demote(s.versions, s.active, bundleId, now);
      Ok(s.(versions := demoted, active := s.active - {bundleId}))
  }

  /* ---------- grants and archiving ---------- */

  function CandidatePermission(
    s: LifecycleState, key: PermissionKey, allowUser: bool, approvedBy: Option<string>, now: real)
    : Planned<LifecycleState>
  {
    var version := s.Version(key.bundleId, key.digest);
    :- Need(ValidKey(key), Malformed);
    :- Need(version.Some? && !version.value.state.Archived?, Transition);
    var text := KeyText(key);
    if allowUser then
      :- Need(approvedBy.Some?, Transition);
      var proposed := Grant(approvedBy.value, now);
      :- Need(proposed.Ok(), Malformed);
      if text in s.grants && s.grants[text].approvedBy == proposed.approvedBy then Ok(s)
      else Ok(s.(grants := s.grants[text := proposed]))
    else if text !in s.grants then Ok(s)
    else Ok(s.(grants := s.grants - {text}))
  }

  function WithoutPrefix(grants: map<string, Grant>, prefix: string): map<string, Grant> {
    map key | key in grants && !(prefix <= key) :: grants[key]
  }

  function Retired(v: VersionRecord, now: real): VersionRecord {
    v.(state := VersionState.Archived, archivedAt := Some(now))
  }

  function CandidateArchive(s: LifecycleState, bundleId: string, digest: string, now: real): Planned<LifecycleState> {
    var found := s.Version(bundleId, digest);
    :- Need(IsName(bundleId) && IsDigest(digest), Malformed);
    :- Need(found.Some?, Transition);
    var version := found.value;
    :- Need(!(bundleId in s.active && s.active[bundleId] == digest), Transition);
    if version.state.Archived? then Ok(s)
    else
      :- Need(version.state.Deprecated?, Transition);
      :- Need(now >= 0.0, Malformed);
      :- Need(TimeAllows(version, now), Transition);
      Ok(s.(versions := SetVersion(s.versions, Retired(version, now)),
            grants := WithoutPrefix(s.grants, VersionPrefix(bundleId, digest))))
  }

  /* ---------- dispatch ---------- */

  function Candidate(s: LifecycleState, r: Request): Planned<LifecycleState> {
    match r
    case RecordDraft(record) => CandidateRecord(s, record)
    case TransitionDraft(id, target, now, item) => CandidateTransition(s, id, target, now, item)
    case RejectDraft(id, now, evidence) => CandidateReject(s, id, now, evidence)
    case ApproveDraft(id, now, expected) => CandidateApprove(s, id, now, expected)
    case ActivateVersion(b, d, now) => CandidateActivate(s, b, d, now)
    case ActivateFromDraft(id, now, expected) => CandidateActivateDraft(s, id, now, expected)
    case Deactivate(b, now) => CandidateDeactivate(s, b, now)
    case Rollback(b, d, now) => CandidateRollback(s, b, d, now)
    case SetPermission(b, d, tool, allow, approver, now) =>
      CandidatePermission(s, PermissionKey(b, d, tool), allow, approver, now)
    case Archive(b, d, now) => CandidateArchive(s, b, d, now)
  }

  function PlanFor(s: LifecycleState, r: Request): Planned<Plan> {
    var candidate :- Candidate(s, r);
    MakePlan(s, Operation(r), candidate)
  }

  /** Compensation: puts the content before a failed plan back, without rewinding the revision. */
  function PlanRestore(s: LifecycleState, snapshot: LifecycleState, failed: Plan): Planned<Plan> {
    var candidate := snapshot.(revision := s.revision);
    :- Need(!failed.noOp, Transition);
    :- Need(s.revision == failed.after.revision && StateDigest(s) == failed.afterDigest, Conflict);
    :- Need(snapshot.revision <= s.revision, Transition);
    :- Need(snapshot.revision == failed.expectedRevision && StateDigest(snapshot) == failed.beforeDigest, Conflict);
    MakePlan(s, "restore_snapshot", candidate)
  }
}
