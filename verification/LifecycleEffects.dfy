/**
 Which requests are accepted and what exactly an accepted one changes: every draft, version, running
 version and grant after it, stated point by point and for all requests alike.
 */
module LifecycleEffects {
  import opened Wrappers
  import opened Text
  import opened Lifecycle
  import opened LifecyclePlans
  import opened LifecyclePlanSafety
  import opened LifecycleEvolution

  function Get<K, V>(m: map<K, V>, k: K): Option<V> {
    if k in m then Some(m[k]) else None
  }

  predicate Runs(s: LifecycleState, b: string, d: string) {
    b in s.active && s.active[b] == d
  }

  function At(r: Request): real {
    match r
    case RecordDraft(record) => record.updatedAt
    case TransitionDraft(_, _, now, _) => now
    case RejectDraft(_, now, _) => now
    case ApproveDraft(_, now, _) => now
    case ActivateVersion(_, _, now) => now
    case ActivateFromDraft(_, now, _) => now
    case Deactivate(_, now) => now
    case Rollback(_, _, now) => now
    case SetPermission(_, _, _, _, _, now) => now
    case Archive(_, _, now) => now
  }

  // The version a request names, directly or by its draft.
  predicate Names(s: LifecycleState, r: Request, b: string, d: string) {
    match r
    case ActivateVersion(x, y, _) => b == x && d == y
    case Rollback(x, y, _) => b == x && d == y
    case Archive(x, y, _) => b == x && d == y
    case SetPermission(x, y, _, _, _, _) => b == x && d == y
    case ApproveDraft(id, _, _) => id in s.drafts && b == s.drafts[id].bundleId && d == s.drafts[id].digest
    case ActivateFromDraft(id, _, _) => id in s.drafts && b == s.drafts[id].bundleId && d == s.drafts[id].digest
    case _ => false
  }

  predicate Activates(r: Request) {
    r.ActivateVersion? || r.Rollback? || r.ActivateFromDraft?
  }

  /** The version that begins to run. */
  predicate Starts(s: LifecycleState, r: Request, b: string, d: string) {
    Activates(r) && Names(s, r, b, d) && !Runs(s, b, d)
  }

  /** The running version that gives way. */
  predicate Stops(s: LifecycleState, r: Request, b: string, d: string) {
    Runs(s, b, d) &&
    match r
    case Deactivate(x, _) => b == x
    case ActivateVersion(x, y, _) => b == x && d != y
    case Rollback(x, y, _) => b == x && d != y
    case ActivateFromDraft(id, _, _) => id in s.drafts && b == s.drafts[id].bundleId && d != s.drafts[id].digest
    case _ => false
  }

  // The draft a new version comes from.
  function Maker(r: Request): Option<string> {
    match r
    case ApproveDraft(id, _, _) => Some(id)
    case ActivateFromDraft(id, _, _) => Some(id)
    case _ => None
  }

  function Fresh(r: Request, b: string, d: string): VersionRecord {
    VersionRecord(b, d, VersionState.Approved, Maker(r), At(r), At(r), None, None, None)
  }

  function Started(v: VersionRecord, r: Request): VersionRecord {
    v.(state := VersionState.Activated, activatedAt := Some(At(r)), deprecatedAt := None, archivedAt := None,
       sourceDraftId := if v.sourceDraftId.Some? then v.sourceDraftId else Maker(r))
  }

  function VersionAfter(s: LifecycleState, r: Request, b: string, d: string): Option<VersionRecord> {
    var was := s.Version(b, d);
    if Starts(s, r, b, d) then Some(Started(if was.Some? then was.value else Fresh(r, b, d), r))
    else if r.ApproveDraft? && Names(s, r, b, d) && was.None? then Some(Fresh(r, b, d))
    else if Stops(s, r, b, d) && was.Some? then
      Some(was.value.(state := VersionState.Deprecated, deprecatedAt := Some(At(r)), archivedAt := None))
    else if r.Archive? && Names(s, r, b, d) && was.Some? && !was.value.state.Archived? then
      Some(was.value.(state := VersionState.Archived, archivedAt := Some(At(r))))
    else was
  }

  // The state a draft is to be in, and the evidence that comes with it.
  function Goal(r: Request): DraftState {
    match r
    case TransitionDraft(_, target, _, _) => target
    case RejectDraft(_, _, _) => DraftState.Rejected
    case RecordDraft(_) => DraftState.Draft
    case _ => DraftState.Approved
  }

  function Brings(r: Request): seq<Evidence> {
    match r
    case TransitionDraft(_, _, _, item) => if item.Some? then [item.value] else []
    case RejectDraft(_, _, evidence) => [evidence]
    case _ => []
  }

  function DraftAfter(s: LifecycleState, r: Request, id: string): Option<DraftRecord> {
    var was := Get(s.drafts, id);
    if SubjectDraft(r) != Some(id) then was
    else if was.None? then (if r.RecordDraft? then Some(r.record) else None)
    else if was.value.state == Goal(r) then was
    else Some(was.value.(state := Goal(r), updatedAt := At(r), evidence := was.value.evidence + Brings(r)))
  }

  function GrantAfter(s: LifecycleState, r: Request, key: string): Option<Grant> {
    var was := Get(s.grants, key);
    match r
    case SetPermission(b, d, tool, allow, who, now) =>
      if key != KeyText(PermissionKey(b, d, tool)) then was
      else if !allow || who.None? then None
      else if was.Some? && was.value.approvedBy == who.value then was
      else Some(Grant(who.value, now))
    case Archive(b, d, _) =>
      if ParseKey(key).Some? && ParseKey(key).value.bundleId == b && ParseKey(key).value.digest == d then None else was
    case _ => was
  }

  ghost predicate DraftsChange(s: LifecycleState, r: Request, t: LifecycleState) {
    forall id :: Get(t.drafts, id) == DraftAfter(s, r, id)
  }

  ghost predicate VersionsChange(s: LifecycleState, r: Request, t: LifecycleState) {
    forall b, d :: t.Version(b, d) == VersionAfter(s, r, b, d)
  }

  ghost predicate RunningChanges(s: LifecycleState, r: Request, t: LifecycleState) {
    forall b, d :: Runs(t, b, d) <==> Starts(s, r, b, d) || (Runs(s, b, d) && !Stops(s, r, b, d))
  }

  ghost predicate GrantsChange(s: LifecycleState, r: Request, t: LifecycleState) {
    forall key :: Get(t.grants, key) == GrantAfter(s, r, key)
  }

  ghost predicate ChangesExactly(s: LifecycleState, r: Request, t: LifecycleState) {
    DraftsChange(s, r, t) && VersionsChange(s, r, t) && RunningChanges(s, r, t) && GrantsChange(s, r, t)
  }

  /* ---------- the changes ---------- */

  // The subject's record is the only one that is set.
  ghost predicate DraftSet(s: LifecycleState, r: Request, t: LifecycleState) {
    match SubjectDraft(r)
    case None => t.drafts == s.drafts
    case Some(id) => DraftAfter(s, r, id).Some? && t.drafts == s.drafts[id := DraftAfter(s, r, id).value]
  }

  lemma EvolvingDraftSet(s: LifecycleState, r: Request)
    requires Candidate(s, r).Ok? && (r.RecordDraft? || r.TransitionDraft? || r.RejectDraft?)
    ensures DraftSet(s, r, Candidate(s, r).value)
  {
    hide DraftRecord.Ok, Evidence.Ok, IsDraftId, EvidenceStates, Follows, TakesEvidence;
    SetToItself(s, SubjectDraft(r).value);
  }

  lemma SetToItself(s: LifecycleState, id: string)
    ensures id in s.drafts ==>
              s.drafts[id := s.drafts[id]] == s.drafts && s.drafts[id].evidence + [] == s.drafts[id].evidence
  {
  }

  lemma ApprovedDraftSet(s: LifecycleState, r: Request)
    requires Candidate(s, r).Ok? && r.ApproveDraft?
    ensures DraftSet(s, r, Candidate(s, r).value)
  {
    hide SetVersion, Find, IsDraftId, NewVersion;
    SetToItself(s, r.draftId);
  }

  lemma ActivatedDraftSet(s: LifecycleState, r: Request)
    requires Candidate(s, r).Ok? && r.ActivateFromDraft?
    ensures DraftSet(s, r, Candidate(s, r).value)
  {
    hide SetVersion, Find, IsDraftId, Demote, ActivatedTarget;
    SetToItself(s, r.draftId);
  }

  lemma OtherDraftsSame(s: LifecycleState, r: Request)
    requires Candidate(s, r).Ok? && SubjectDraft(r).None?
    ensures Candidate(s, r).value.drafts == s.drafts
  {
    hide SetVersion, Find, IsName, IsDigest, Demote, WithoutPrefix, KeyText, VersionPrefix, Grant.Ok, TimeAllows;
  }

  lemma DraftsChangeExactly(s: LifecycleState, r: Request)
    requires Candidate(s, r).Ok?
    ensures DraftsChange(s, r, Candidate(s, r).value)
  {
    hide Candidate;
    match r {
      case ApproveDraft(_, _, _) => ApprovedDraftSet(s, r);
      case ActivateFromDraft(_, _, _) => ActivatedDraftSet(s, r);
      case RecordDraft(_) => EvolvingDraftSet(s, r);
      case TransitionDraft(_, _, _, _) => EvolvingDraftSet(s, r);
      case RejectDraft(_, _, _) => EvolvingDraftSet(s, r);
      case _ => OtherDraftsSame(s, r);
    }
    DraftSetChanges(s, r, Candidate(s, r).value);
  }

  lemma DraftSetChanges(s: LifecycleState, r: Request, t: LifecycleState)
    requires DraftSet(s, r, t)
    ensures DraftsChange(s, r, t)
  {
  }

  // Version b, d is set to the target, and the running version of its bundle demoted when it is another.
  ghost predicate Switched(
    s: LifecycleState, t: LifecycleState, b: string, d: string, target: VersionRecord, now: real)
  {
    forall x, y :: t.Version(x, y) == SwitchedAt(s, b, d, target, now, x, y)
  }

  function SwitchedAt(
    s: LifecycleState, b: string, d: string, target: VersionRecord, now: real, x: string, y: string)
    : Option<VersionRecord>
  {
    if x == b && y == d then Some(target)
    else if x == b && Runs(s, x, y) && s.Version(x, y).Some? then Some(Demoted(s.Version(x, y).value, now))
    else s.Version(x, y)
  }

  lemma SwitchChanges(s: LifecycleState, t: LifecycleState, demoted: Versions, target: VersionRecord, now: real)
    requires DemotesOnly(s, target.bundleId, now, demoted)
    requires t.versions == SetVersion(demoted, target)
    ensures Switched(s, t, target.bundleId, target.digest, target, now)
  {
  }

  lemma ActivationShape(s: LifecycleState, b: string, d: string, now: real)
    requires CandidateActivate(s, b, d, now).Ok? && !Runs(s, b, d)
    ensures var t := CandidateActivate(s, b, d, now).value;
            var demoted := Demote(s.versions, s.active, b, now);
            && s.Version(b, d).Some? && now >= 0.0 && demoted.Ok? && !s.Version(b, d).value.state.Archived?
            && t.versions == SetVersion(demoted.value, Promote(s.Version(b, d).value, now))
            && t.active == s.active[b := d]
  {
    hide Demote, SetVersion, Promote, IsName, IsDigest, Find, TimeAllows;
  }

  lemma ActivationChanges(s: LifecycleState, r: Request)
    requires s.WellFormed() && r.ActivateVersion? && Candidate(s, r).Ok?
    ensures VersionsChange(s, r, Candidate(s, r).value) && RunningChanges(s, r, Candidate(s, r).value)
  {
    var b, d, t := r.bundleId, r.digest, Candidate(s, r).value;
    if Runs(s, b, d) {
      assert t == s;
      hide CandidateActivate, Find;
    } else {
      ActivationShape(s, b, d, r.now);
      Promotable(s, b, d);
      DemoteOk(s, b, r.now);
      hide CandidateActivate, LifecycleState.WellFormed, Find, SetVersion, Demote, DemotesOnly;
      var v := s.Version(b, d).value;
      SwitchChanges(s, t, Demote(s.versions, s.active, b, r.now).value, Promote(v, r.now), r.now);
      assert Started(v, r) == Promote(v, r.now);
      StartChanges(s, r, t, b, d);
    }
  }

  // A request that starts version b, d.
  lemma StartChanges(s: LifecycleState, r: Request, t: LifecycleState, b: string, d: string)
    requires Activates(r) && Names(s, r, b, d) && !Runs(s, b, d) && t.active == s.active[b := d]
    requires var was := s.Version(b, d);
             Switched(s, t, b, d, Started(if was.Some? then was.value else Fresh(r, b, d), r), At(r))
    ensures VersionsChange(s, r, t) && RunningChanges(s, r, t)
  {
    hide Started, Fresh, LifecycleState.Version;
  }

  lemma RollbackChanges(s: LifecycleState, r: Request)
    requires s.WellFormed() && r.Rollback? && Candidate(s, r).Ok?
    ensures VersionsChange(s, r, Candidate(s, r).value) && RunningChanges(s, r, Candidate(s, r).value)
  {
    RollbackIsActivation(s, r.bundleId, r.digest, r.now);
    var a := ActivateVersion(r.bundleId, r.digest, r.now);
    hide LifecycleState.WellFormed, CandidateActivate, CandidateRollback, LifecycleState.Version;
    ActivationChanges(s, a);
    assert forall b, d :: VersionAfter(s, r, b, d) == VersionAfter(s, a, b, d);
  }

  lemma DeactivationChanges(s: LifecycleState, r: Request)
    requires s.WellFormed() && r.Deactivate? && Candidate(s, r).Ok?
    ensures VersionsChange(s, r, Candidate(s, r).value) && RunningChanges(s, r, Candidate(s, r).value)
  {
    hide LifecycleState.WellFormed, IsName, IsDigest, SetVersion, Demote, Find;
    if r.bundleId in s.active {
      DemoteOk(s, r.bundleId, r.now);
    }
  }

  lemma ArchiveChanges(s: LifecycleState, r: Request)
    requires s.WellFormed() && r.Archive? && Candidate(s, r).Ok?
    ensures VersionsChange(s, r, Candidate(s, r).value) && RunningChanges(s, r, Candidate(s, r).value)
  {
    VersionAt(s, r.bundleId, r.digest);
    hide LifecycleState.WellFormed, IsName, IsDigest, VersionPrefix, WithoutPrefix;
  }

  lemma ApprovalShape(s: LifecycleState, draftId: string, now: real, expected: Option<string>)
    requires CandidateApprove(s, draftId, now, expected).Ok?
    ensures var t := CandidateApprove(s, draftId, now, expected).value;
            && draftId in s.drafts && t.active == s.active
            && var d := s.drafts[draftId];
            t.versions == if s.Version(d.bundleId, d.digest).Some? then s.versions
                          else SetVersion(s.versions, NewVersion(d, VersionState.Approved, now))
  {
    hide IsDraftId, Advance, SetVersion, Find, NewVersion;
  }

  lemma VersionAdded(s: LifecycleState, r: Request, t: LifecycleState)
    requires r.ApproveDraft? && r.draftId in s.drafts && s.drafts[r.draftId].draftId == r.draftId
    requires var d := s.drafts[r.draftId];
             && t.active == s.active
             && t.versions == if s.Version(d.bundleId, d.digest).Some? then s.versions
                              else SetVersion(s.versions, NewVersion(d, VersionState.Approved, r.now))
    ensures VersionsChange(s, r, t) && RunningChanges(s, r, t)
  {
    hide SetVersion, Find;
  }

  lemma ApprovalChanges(s: LifecycleState, r: Request)
    requires s.WellFormed() && r.ApproveDraft? && Candidate(s, r).Ok?
    ensures VersionsChange(s, r, Candidate(s, r).value) && RunningChanges(s, r, Candidate(s, r).value)
  {
    ApprovalShape(s, r.draftId, r.now, r.expectedDigest);
    RecordOf(s, r.draftId);
    hide LifecycleState.WellFormed, DraftRecord.Ok, CandidateApprove, VersionsChange, RunningChanges;
    VersionAdded(s, r, Candidate(s, r).value);
  }

  lemma DraftActivationShape(s: LifecycleState, draftId: string, now: real, expected: Option<string>)
    requires s.WellFormed() && CandidateActivateDraft(s, draftId, now, expected).Ok?
    ensures draftId in s.drafts
    ensures var d, t := s.drafts[draftId], CandidateActivateDraft(s, draftId, now, expected).value;
            if Runs(s, d.bundleId, d.digest) then t.versions == s.versions && t.active == s.active
            else
              var demoted := Demote(s.versions, s.active, d.bundleId, now);
              var target := ActivatedTarget(d, s.Version(d.bundleId, d.digest), now);
              && now >= 0.0 && demoted.Ok? && target.Ok?
              && t.versions == SetVersion(demoted.value, target.value)
              && t.active == s.active[d.bundleId := d.digest]
  {
    hide LifecycleState.WellFormed, SetVersion, Demote, Find, IsDraftId, Advance, ActivatedTarget;
    if draftId in s.drafts && Runs(s, s.drafts[draftId].bundleId, s.drafts[draftId].digest) {
      RunningTarget(s, s.drafts[draftId], now);
    }
  }

  lemma DraftVersionStarted(s: LifecycleState, r: Request, t: LifecycleState)
    requires s.WellFormed() && r.ActivateFromDraft? && r.draftId in s.drafts && s.drafts[r.draftId].draftId == r.draftId
    requires var d := s.drafts[r.draftId];
             var demoted := Demote(s.versions, s.active, d.bundleId, r.now);
             var target := ActivatedTarget(d, s.Version(d.bundleId, d.digest), r.now);
             && !Runs(s, d.bundleId, d.digest) && r.now >= 0.0 && demoted.Ok? && target.Ok?
             && t.versions == SetVersion(demoted.value, target.value)
             && t.active == s.active[d.bundleId := d.digest]
    ensures VersionsChange(s, r, t) && RunningChanges(s, r, t)
  {
    var d := s.drafts[r.draftId];
    hide LifecycleState.WellFormed, SetVersion, Demote, DemotesOnly, ActivatedTarget, VersionRecord.Ok, Started, Fresh;
    hide Find, DraftRecord.Ok, VersionsChange, RunningChanges, Switched;
    DemoteOk(s, d.bundleId, r.now);
    TargetIs(s, r);
    SwitchChanges(s, t, Demote(s.versions, s.active, d.bundleId, r.now).value,
                  ActivatedTarget(d, s.Version(d.bundleId, d.digest), r.now).value, r.now);
    StartChanges(s, r, t, d.bundleId, d.digest);
  }

  lemma DraftActivationChanges(s: LifecycleState, r: Request)
    requires s.WellFormed() && r.ActivateFromDraft? && Candidate(s, r).Ok?
    ensures VersionsChange(s, r, Candidate(s, r).value) && RunningChanges(s, r, Candidate(s, r).value)
  {
    DraftActivationShape(s, r.draftId, r.now, r.expectedDigest);
    RecordOf(s, r.draftId);
    hide LifecycleState.WellFormed, DraftRecord.Ok, CandidateActivateDraft, Find, SetVersion, Demote, ActivatedTarget;
    var d := s.drafts[r.draftId];
    if !Runs(s, d.bundleId, d.digest) {
      DraftVersionStarted(s, r, Candidate(s, r).value);
    } else {
      NothingStarted(s, r, Candidate(s, r).value);
    }
  }

  lemma NothingStarted(s: LifecycleState, r: Request, t: LifecycleState)
    requires r.ActivateFromDraft? && r.draftId in s.drafts && t.versions == s.versions && t.active == s.active
    requires Runs(s, s.drafts[r.draftId].bundleId, s.drafts[r.draftId].digest)
    ensures VersionsChange(s, r, t) && RunningChanges(s, r, t)
  {
    hide Find;
  }

  lemma TargetIs(s: LifecycleState, r: Request)
    requires s.WellFormed() && r.ActivateFromDraft? && r.draftId in s.drafts
    requires var d := s.drafts[r.draftId];
             !Runs(s, d.bundleId, d.digest) && ActivatedTarget(d, s.Version(d.bundleId, d.digest), r.now).Ok?
    ensures var d := s.drafts[r.draftId];
            var was := s.Version(d.bundleId, d.digest);
            var target := ActivatedTarget(d, was, r.now).value;
            && target == Started(if was.Some? then was.value else Fresh(r, d.bundleId, d.digest), r)
            && target.bundleId == d.bundleId && target.digest == d.digest
  {
    hide DraftRecord.Ok, VersionRecord.Ok, IsName, IsDigest, LifecycleState.GrantsOk;
    assert s.drafts[r.draftId].draftId == r.draftId;
  }

  lemma GrantsChangeExactly(s: LifecycleState, r: Request)
    requires s.WellFormed() && Candidate(s, r).Ok?
    ensures GrantsChange(s, r, Candidate(s, r).value)
  {
    hide LifecycleState.WellFormed, Candidate;
    if r.SetPermission? {
      PermittedGrants(s, r);
    } else if r.Archive? {
      ArchivedGrants(s, r);
    } else {
      UntouchedFields(s, r);
    }
  }

  lemma PermittedGrants(s: LifecycleState, r: Request)
    requires r.SetPermission? && Candidate(s, r).Ok?
    ensures GrantsChange(s, r, Candidate(s, r).value)
  {
    hide KeyText, ValidKey, Grant.Ok, LifecycleState.Version;
  }

  lemma ArchivedGrants(s: LifecycleState, r: Request)
    requires s.WellFormed() && r.Archive? && Candidate(s, r).Ok?
    ensures GrantsChange(s, r, Candidate(s, r).value)
  {
    assert s.GrantsOk();
    VersionAt(s, r.bundleId, r.digest);
    hide VersionRecord.Ok, DraftRecord.Ok, Grant.Ok, IsName, IsDigest, VersionPrefix, ParseKey;
    forall key ensures Get(Candidate(s, r).value.grants, key) == GrantAfter(s, r, key) {
      if key in s.grants {
        ArchiveDropsGrants(s, r.bundleId, r.digest, key);
        assert s.GrantTarget(key).Some?;
      }
    }
  }

  /** What every draft, version, running version and grant is after an accepted request. */
  lemma ExactChange(s: LifecycleState, r: Request)
    requires s.WellFormed() && PlanFor(s, r).Ok?
    ensures ChangesExactly(s, r, PlanFor(s, r).value.after)
  {
    hide LifecycleState.WellFormed, Candidate, Sound, MakePlan;
    hide DraftsChange, VersionsChange, RunningChanges, GrantsChange;
    var c := Candidate(s, r).value;
    DraftsChangeExactly(s, r);
    GrantsChangeExactly(s, r);
    match r {
      case ActivateVersion(_, _, _) => ActivationChanges(s, r);
      case Rollback(_, _, _) => RollbackChanges(s, r);
      case Deactivate(_, _) => DeactivationChanges(s, r);
      case Archive(_, _, _) => ArchiveChanges(s, r);
      case ApproveDraft(_, _, _) => ApprovalChanges(s, r);
      case ActivateFromDraft(_, _, _) => DraftActivationChanges(s, r);
      case _ => OtherChanges(s, r);
    }
    PlannersNeverBreak(s, r);
    SameContentChanges(s, r, c, PlanFor(s, r).value.after);
  }

  lemma OtherChanges(s: LifecycleState, r: Request)
    requires Candidate(s, r).Ok? && (r.RecordDraft? || r.TransitionDraft? || r.RejectDraft? || r.SetPermission?)
    ensures VersionsChange(s, r, Candidate(s, r).value) && RunningChanges(s, r, Candidate(s, r).value)
  {
    UntouchedFields(s, r);
    hide Candidate, Find;
  }

  lemma SameContentChanges(s: LifecycleState, r: Request, c: LifecycleState, t: LifecycleState)
    requires t.SameContent(c) && ChangesExactly(s, r, c)
    ensures ChangesExactly(s, r, t)
  {
    hide VersionAfter, DraftAfter, GrantAfter, Starts, Stops;
  }

  /* ---------- what is accepted ---------- */

  // The draft is known and, when a digest is expected, has it.
  predicate Knows(s: LifecycleState, id: string, expected: Option<string>) {
    id in s.drafts && (expected.Some? ==> expected.value == s.drafts[id].digest)
  }

  // How far a draft has come; decided and failed drafts have no stage.
  function Stage(state: DraftState): Option<nat> {
    match state
    case Draft => Some(0)
    case StaticValidated => Some(1)
    case SandboxTested => Some(2)
    case ModelReviewed => Some(3)
    case AwaitingApproval => Some(4)
    case _ => None
  }

  /** A draft moves up one stage, fails the check it is at, or is rejected. */
  predicate LeadsTo(from: DraftState, to: DraftState) {
    Stage(from).Some? &&
    match to
    case Rejected => true
    case ValidationFailed => Stage(from).value == 0
    case TestFailed => Stage(from).value == 1
    case ReviewFailed => Stage(from).value in {2, 3}
    case _ => Stage(to) == Some(Stage(from).value + 1)
  }

  predicate Usable(v: Option<VersionRecord>) {
    v.Some? ==> !v.value.state.Archived?
  }

  predicate Permitted(s: LifecycleState, key: PermissionKey, allow: bool, who: Option<string>, now: real) {
    && ValidKey(key) && s.Version(key.bundleId, key.digest).Some? && Usable(s.Version(key.bundleId, key.digest))
    && (allow ==> who.Some? && Grant(who.value, now).Ok())
  }

  function DraftVersion(s: LifecycleState, id: string): Option<VersionRecord>
    requires id in s.drafts
  {
    s.Version(s.drafts[id].bundleId, s.drafts[id].digest)
  }

  /** What the request asks for is already so. */
  predicate Done(s: LifecycleState, r: Request) {
    match r
    case RecordDraft(record) => Get(s.drafts, record.draftId) == Some(record) && record.state.Draft?
    case TransitionDraft(id, target, _, _) => id in s.drafts && s.drafts[id].state == target
    case RejectDraft(id, _, _) => id in s.drafts && s.drafts[id].state.Rejected?
    case ApproveDraft(id, _, expected) => Knows(s, id, expected) && s.drafts[id].state.Approved?
    case ActivateVersion(b, d, _) => Runs(s, b, d)
    case ActivateFromDraft(id, _, expected) =>
      Knows(s, id, expected) && s.drafts[id].state.Approved? && Runs(s, s.drafts[id].bundleId, s.drafts[id].digest)
    case Deactivate(b, _) => IsName(b) && b !in s.active
    case Rollback(b, d, _) => Runs(s, b, d)
    case SetPermission(b, d, tool, allow, who, now) =>
      var key := PermissionKey(b, d, tool);
      && Permitted(s, key, allow, who, now)
      && (KeyText(key) in s.grants <==> allow)
      && (allow ==> who == Some(s.grants[KeyText(key)].approvedBy))
    case Archive(b, d, _) => s.Version(b, d).Some? && s.Version(b, d).value.state.Archived?
  }

  /** What the records' states demand, times aside. */
  predicate Ready(s: LifecycleState, r: Request) {
    match r
    case RecordDraft(record) => record.Ok() && record.state.Draft? && record.draftId !in s.drafts
    case TransitionDraft(id, target, _, item) =>
      && id in s.drafts && LeadsTo(s.drafts[id].state, target)
      && (item.Some? <==> TakesEvidence(target))
      && (item.Some? ==> item.value.Ok() && item.value.state == target && item.value.draftDigest == s.drafts[id].digest)
    case RejectDraft(id, _, evidence) =>
      && id in s.drafts && !s.drafts[id].state.Approved?
      && evidence.Ok() && evidence.state.Rejected? && evidence.draftDigest == s.drafts[id].digest
    case ApproveDraft(id, _, expected) =>
      Knows(s, id, expected) && s.drafts[id].state.AwaitingApproval? && Usable(DraftVersion(s, id))
    case ActivateVersion(b, d, _) => s.Version(b, d).Some? && Usable(s.Version(b, d))
    case ActivateFromDraft(id, _, expected) =>
      Knows(s, id, expected) && s.drafts[id].state.AwaitingApproval? && Usable(DraftVersion(s, id))
    case Deactivate(b, _) => b in s.active
    case Rollback(b, d, _) => s.Version(b, d).Some? && Usable(s.Version(b, d))
    case SetPermission(b, d, tool, allow, who, now) => Permitted(s, PermissionKey(b, d, tool), allow, who, now)
    case Archive(b, d, _) => s.Version(b, d).Some? && s.Version(b, d).value.state.Deprecated?
  }

  predicate NoLater(v: VersionRecord, now: real) {
    && v.approvedAt <= now
    && (v.activatedAt.Some? ==> v.activatedAt.value <= now)
    && (v.deprecatedAt.Some? ==> v.deprecatedAt.value <= now)
  }

  lemma NoLaterAllows(v: VersionRecord, now: real)
    ensures NoLater(v, now) <==> TimeAllows(v, now)
  {
  }

  // No version the request starts, stops or archives has a time later than the request.
  ghost predicate VersionsInTime(s: LifecycleState, r: Request) {
    forall b, d ::
      s.Version(b, d).Some? && (Starts(s, r, b, d) || Stops(s, r, b, d) || (r.Archive? && Names(s, r, b, d)))
      ==> NoLater(s.Version(b, d).value, At(r))
  }

  /** No record that changes has a time later than the request, and evidence is recorded at its time. */
  ghost predicate InTime(s: LifecycleState, r: Request) {
    && (SubjectDraft(r).Some? && SubjectDraft(r).value in s.drafts ==>
        s.drafts[SubjectDraft(r).value].updatedAt <= At(r))
    && (forall e :: e in Brings(r) ==> e.recordedAt == At(r))
    && VersionsInTime(s, r)
  }

  // Acceptance and being without effect, as the theorem below states them.
  ghost predicate Accepts(s: LifecycleState, r: Request, c: Planned<LifecycleState>) {
    c.Ok? <==> Done(s, r) || (Ready(s, r) && InTime(s, r))
  }

  predicate ChangesUnlessDone(s: LifecycleState, r: Request, c: Planned<LifecycleState>) {
    c.Ok? ==> (c.value.SameContent(s) <==> Done(s, r))
  }

  ghost predicate Decided(s: LifecycleState, r: Request, c: Planned<LifecycleState>) {
    Accepts(s, r, c) && ChangesUnlessDone(s, r, c)
  }

  lemma RecordAccepted(s: LifecycleState, r: Request)
    requires s.WellFormed() && r.RecordDraft?
    ensures Accepts(s, r, CandidateRecord(s, r.record))
  {
    RecordOf(s, r.record.draftId);
    NoVersionsInvolved(s, r);
    hide LifecycleState.WellFormed, DraftRecord.Ok, VersionsInTime, SetDraft;
  }

  lemma RecordChanges(s: LifecycleState, r: Request)
    requires r.RecordDraft?
    ensures ChangesUnlessDone(s, r, CandidateRecord(s, r.record))
  {
    hide DraftRecord.Ok;
    SetToItself(s, r.record.draftId);
  }

  lemma RecordDecided(s: LifecycleState, r: Request)
    requires s.WellFormed() && r.RecordDraft?
    ensures Decided(s, r, CandidateRecord(s, r.record))
  {
    hide LifecycleState.WellFormed, CandidateRecord, Accepts, ChangesUnlessDone;
    RecordAccepted(s, r);
    RecordChanges(s, r);
  }

  // A draft in a state that takes evidence carries it.
  lemma EvidenceThere(r: DraftRecord)
    requires r.Ok() && TakesEvidence(r.state)
    ensures r.state in EvidenceStates(r.evidence)
  {
    hide EvidenceStates, DraftRecord.HeaderOk, DraftRecord.EvidenceChained;
    assert r.state in Required(r.state);
  }

  lemma DraftTimes(r: DraftRecord)
    requires r.Ok()
    ensures IsDraftId(r.draftId) && 0.0 <= r.updatedAt
  {
    hide IsDraftId, IsName, IsDigest;
  }

  lemma NoVersionsInvolved(s: LifecycleState, r: Request)
    requires r.RecordDraft? || r.TransitionDraft? || r.RejectDraft? || r.SetPermission? || r.ApproveDraft?
    ensures VersionsInTime(s, r)
  {
    hide Find, NoLater;
  }

  lemma DraftRequestInTime(s: LifecycleState, r: Request, item: Option<Evidence>)
    requires (r.TransitionDraft? && item == r.item) || (r.RejectDraft? && item == Some(r.evidence))
    ensures InTime(s, r) <==>
            && (r.draftId in s.drafts ==> s.drafts[r.draftId].updatedAt <= r.now)
            && (item.Some? ==> item.value.recordedAt == r.now)
  {
    NoVersionsInvolved(s, r);
    hide VersionsInTime;
    assert item.Some? ==> Brings(r)[0] == item.value;
  }

  lemma TransitionAccepted(s: LifecycleState, r: Request)
    requires s.WellFormed() && r.TransitionDraft?
    ensures Accepts(s, r, CandidateTransition(s, r.draftId, r.target, r.now, r.item))
  {
    hide LifecycleState.WellFormed, InTime, DraftRecord.Ok, Evidence.Ok, IsDraftId, EvidenceStates, TakesEvidence;
    hide Advance, SetDraft;
    DraftRequestInTime(s, r, r.item);
    if r.draftId in s.drafts {
      DraftFacts(s, r.draftId);
    }
  }

  lemma DraftFacts(s: LifecycleState, id: string)
    requires s.WellFormed() && id in s.drafts
    ensures IsDraftId(id) && 0.0 <= s.drafts[id].updatedAt
    ensures TakesEvidence(s.drafts[id].state) ==> s.drafts[id].state in EvidenceStates(s.drafts[id].evidence)
  {
    RecordOf(s, id);
    hide LifecycleState.WellFormed;
    DraftTimes(s.drafts[id]);
    if TakesEvidence(s.drafts[id].state) {
      EvidenceThere(s.drafts[id]);
    }
  }

  lemma TransitionDecided(s: LifecycleState, r: Request)
    requires s.WellFormed() && r.TransitionDraft?
    ensures Decided(s, r, CandidateTransition(s, r.draftId, r.target, r.now, r.item))
  {
    TransitionAccepted(s, r);
    hide LifecycleState.WellFormed, IsDraftId, EvidenceStates, CheckTransition, Accepts, DraftRecord.Ok, Evidence.Ok;
  }

  lemma RejectionAccepted(s: LifecycleState, r: Request)
    requires s.WellFormed() && r.RejectDraft?
    ensures Accepts(s, r, CandidateReject(s, r.draftId, r.now, r.evidence))
  {
    hide LifecycleState.WellFormed, InTime, DraftRecord.Ok, Evidence.Ok, IsDraftId, EvidenceStates, Advance, SetDraft;
    DraftRequestInTime(s, r, Some(r.evidence));
    if r.draftId in s.drafts {
      DraftFacts(s, r.draftId);
    }
  }

  lemma RejectionChanges(s: LifecycleState, r: Request)
    requires r.RejectDraft?
    ensures ChangesUnlessDone(s, r, CandidateReject(s, r.draftId, r.now, r.evidence))
  {
    hide IsDraftId, EvidenceStates, CheckRejection;
  }

  lemma RejectionDecided(s: LifecycleState, r: Request)
    requires s.WellFormed() && r.RejectDraft?
    ensures Decided(s, r, CandidateReject(s, r.draftId, r.now, r.evidence))
  {
    hide LifecycleState.WellFormed, CandidateReject, Accepts, ChangesUnlessDone;
    RejectionAccepted(s, r);
    RejectionChanges(s, r);
  }

  lemma ApprovalInTime(s: LifecycleState, r: Request)
    requires s.WellFormed() && r.ApproveDraft? && r.draftId in s.drafts
    ensures IsDraftId(r.draftId) && 0.0 <= s.drafts[r.draftId].updatedAt
    ensures s.drafts[r.draftId].state.Approved? ==> DraftVersion(s, r.draftId).Some?
    ensures InTime(s, r) <==> s.drafts[r.draftId].updatedAt <= r.now
  {
    DraftFacts(s, r.draftId);
    NoVersionsInvolved(s, r);
    hide VersionsInTime, DraftRecord.Ok, VersionRecord.Ok, IsDraftId, LifecycleState.GrantsOk, EvidenceStates;
  }

  lemma ApprovalAccepted(s: LifecycleState, r: Request)
    requires s.WellFormed() && r.ApproveDraft?
    ensures Accepts(s, r, CandidateApprove(s, r.draftId, r.now, r.expectedDigest))
  {
    hide LifecycleState.WellFormed, InTime, IsDraftId, LifecycleState.Version;
    hide SetVersion, NewVersion, Advance, SetDraft;
    if r.draftId in s.drafts {
      ApprovalInTime(s, r);
    }
  }

  lemma ApprovalAltersDraft(s: LifecycleState, r: Request)
    requires r.ApproveDraft?
    ensures ChangesUnlessDone(s, r, CandidateApprove(s, r.draftId, r.now, r.expectedDigest))
  {
    hide IsDraftId, LifecycleState.Version, SetVersion, NewVersion;
  }

  lemma ApprovalDecided(s: LifecycleState, r: Request)
    requires s.WellFormed() && r.ApproveDraft?
    ensures Decided(s, r, CandidateApprove(s, r.draftId, r.now, r.expectedDigest))
  {
    hide LifecycleState.WellFormed, CandidateApprove, Accepts, ChangesUnlessDone;
    ApprovalAccepted(s, r);
    ApprovalAltersDraft(s, r);
  }

  lemma DemotesInTime(s: LifecycleState, b: string, now: real)
    requires s.WellFormed()
    ensures b in s.active ==> s.Version(b, s.active[b]).Some?
    ensures Demote(s.versions, s.active, b, now).Ok? <==>
            (b in s.active ==> NoLater(s.Version(b, s.active[b]).value, now))
    ensures b in s.active && Demote(s.versions, s.active, b, now).Ok? ==> now >= 0.0 && IsName(b)
  {
    if b in s.active {
      RunningVersion(s, b);
      VersionAt(s, b, s.active[b]);
      var v := s.Version(b, s.active[b]).value;
      assert v.TimesOk() && v.TimesMatchState();
    }
    hide LifecycleState.WellFormed, LifecycleState.VersionsOk, IsName, IsDigest, SetVersion, Find, VersionRecord.Ok;
  }

  lemma StartsInTime(s: LifecycleState, r: Request, b: string, d: string)
    requires s.WellFormed() && Activates(r) && Names(s, r, b, d) && !Runs(s, b, d)
    ensures VersionsInTime(s, r) <==>
            && (s.Version(b, d).Some? ==> TimeAllows(s.Version(b, d).value, At(r)))
            && Demote(s.versions, s.active, b, At(r)).Ok?
  {
    DemotesInTime(s, b, At(r));
    if s.Version(b, d).Some? {
      NoLaterAllows(s.Version(b, d).value, At(r));
    }
    hide LifecycleState.WellFormed, LifecycleState.Version, Demote, NoLater, TimeAllows, IsName;
    assert s.Version(b, d).Some? ==> Starts(s, r, b, d);
    if b in s.active {
      assert Stops(s, r, b, s.active[b]);
    }
  }

  // The version's facts that acceptance depends on.
  lemma VersionFacts(s: LifecycleState, b: string, d: string, now: real)
    requires s.WellFormed()
    ensures Runs(s, b, d) <==> s.Version(b, d).Some? && s.Version(b, d).value.state.Activated?
    ensures s.Version(b, d).Some? ==> IsName(b) && IsDigest(d)
    ensures s.Version(b, d).Some? && TimeAllows(s.Version(b, d).value, now) ==> now >= 0.0
  {
    if s.Version(b, d).Some? {
      VersionAt(s, b, d);
      assert s.Version(b, d).value.TimesOk();
    }
    hide VersionRecord.Ok, DraftRecord.Ok, LifecycleState.GrantsOk, IsName, IsDigest, TimeAllows;
  }

  lemma ActivationDecided(s: LifecycleState, r: Request)
    requires s.WellFormed() && r.ActivateVersion?
    ensures Decided(s, r, CandidateActivate(s, r.bundleId, r.digest, r.now))
  {
    VersionFacts(s, r.bundleId, r.digest, r.now);
    hide LifecycleState.WellFormed, VersionsInTime;
    if !Runs(s, r.bundleId, r.digest) {
      StartsInTime(s, r, r.bundleId, r.digest);
    }
    hide Find, IsName, IsDigest, Demote, SetVersion, Promote, TimeAllows;
  }

  lemma DraftActivationInTime(s: LifecycleState, r: Request)
    requires s.WellFormed() && r.ActivateFromDraft? && r.draftId in s.drafts
    ensures var d := s.drafts[r.draftId];
            var v := s.Version(d.bundleId, d.digest);
            && IsDraftId(r.draftId) && 0.0 <= d.updatedAt
            && (Runs(s, d.bundleId, d.digest) <==> v.Some? && v.value.state.Activated?)
            && (InTime(s, r) <==>
                && d.updatedAt <= r.now
                && (!Runs(s, d.bundleId, d.digest) ==>
                      && (v.Some? ==> TimeAllows(v.value, r.now))
                      && Demote(s.versions, s.active, d.bundleId, r.now).Ok?))
  {
    hide LifecycleState.WellFormed, VersionsInTime, LifecycleState.Version, Demote;
    hide NoLater, TimeAllows, IsDraftId, EvidenceStates;
    var d := s.drafts[r.draftId];
    DraftFacts(s, r.draftId);
    VersionFacts(s, d.bundleId, d.digest, r.now);
    if Runs(s, d.bundleId, d.digest) {
      RunningInTime(s, r);
    } else {
      StartsInTime(s, r, d.bundleId, d.digest);
    }
  }

  lemma DraftActivationAccepted(s: LifecycleState, r: Request)
    requires s.WellFormed() && r.ActivateFromDraft?
    ensures Accepts(s, r, CandidateActivateDraft(s, r.draftId, r.now, r.expectedDigest))
  {
    hide LifecycleState.WellFormed, InTime, IsDraftId, LifecycleState.Version, Demote, SetVersion, Promote, TimeAllows;
    hide NewVersion, Advance, SetDraft;
    if r.draftId in s.drafts {
      DraftActivationInTime(s, r);
    }
  }

  lemma DraftActivationAltersDraft(s: LifecycleState, r: Request)
    requires r.ActivateFromDraft?
    ensures ChangesUnlessDone(s, r, CandidateActivateDraft(s, r.draftId, r.now, r.expectedDigest))
  {
    hide IsDraftId, LifecycleState.Version, SetVersion, NewVersion, Demote, ActivatedTarget;
  }

  lemma DraftActivationDecided(s: LifecycleState, r: Request)
    requires s.WellFormed() && r.ActivateFromDraft?
    ensures Decided(s, r, CandidateActivateDraft(s, r.draftId, r.now, r.expectedDigest))
  {
    hide LifecycleState.WellFormed, CandidateActivateDraft, Accepts, ChangesUnlessDone;
    DraftActivationAccepted(s, r);
    DraftActivationAltersDraft(s, r);
  }

  lemma RunningInTime(s: LifecycleState, r: Request)
    requires r.ActivateFromDraft? && r.draftId in s.drafts
    requires Runs(s, s.drafts[r.draftId].bundleId, s.drafts[r.draftId].digest)
    ensures VersionsInTime(s, r)
  {
    hide Find, NoLater;
  }

  lemma StopsInTime(s: LifecycleState, r: Request)
    requires s.WellFormed() && r.Deactivate? && r.bundleId in s.active
    ensures VersionsInTime(s, r) <==> Demote(s.versions, s.active, r.bundleId, r.now).Ok?
  {
    DemotesInTime(s, r.bundleId, r.now);
    hide LifecycleState.WellFormed, LifecycleState.Version, Demote, NoLater, IsName;
    assert Stops(s, r, r.bundleId, s.active[r.bundleId]);
  }

  lemma DeactivationDecided(s: LifecycleState, r: Request)
    requires s.WellFormed() && r.Deactivate?
    ensures Decided(s, r, CandidateDeactivate(s, r.bundleId, r.now))
  {
    DemotesInTime(s, r.bundleId, r.now);
    assert r.bundleId in s.active ==> IsName(r.bundleId);
    if r.bundleId in s.active {
      StopsInTime(s, r);
    }
    hide LifecycleState.WellFormed, IsName, LifecycleState.Version, Demote, VersionsInTime, TimeAllows;
  }

  lemma ArchivalDecided(s: LifecycleState, r: Request)
    requires s.WellFormed() && r.Archive?
    ensures Decided(s, r, CandidateArchive(s, r.bundleId, r.digest, r.now))
  {
    VersionFacts(s, r.bundleId, r.digest, r.now);
    hide LifecycleState.WellFormed, IsName, IsDigest, TimeAllows, VersionPrefix, WithoutPrefix;
  }

  lemma PermissionAccepted(s: LifecycleState, r: Request)
    requires s.WellFormed() && r.SetPermission?
    ensures var key := PermissionKey(r.bundleId, r.digest, r.tool);
            Accepts(s, r, CandidatePermission(s, key, r.allowUser, r.approvedBy, r.now))
  {
    NoVersionsInvolved(s, r);
    assert InTime(s, r);
    hide LifecycleState.WellFormed, InTime, VersionsInTime, KeyText, ValidKey, LifecycleState.Version, Grant.Ok;
  }

  lemma PermissionDecided(s: LifecycleState, r: Request)
    requires s.WellFormed() && r.SetPermission?
    ensures var key := PermissionKey(r.bundleId, r.digest, r.tool);
            Decided(s, r, CandidatePermission(s, key, r.allowUser, r.approvedBy, r.now))
  {
    PermissionAccepted(s, r);
    hide LifecycleState.WellFormed, Accepts, KeyText, ValidKey, LifecycleState.Version, Grant.Ok;
  }

  /**
   A request is accepted exactly when what it asks for is already so, or the records' states allow it and
   no record that changes has a later time; and it changes nothing exactly in the first case.
   */
  lemma AcceptedExactly(s: LifecycleState, r: Request)
    requires s.WellFormed()
    ensures PlanFor(s, r).Ok? <==> Done(s, r) || (Ready(s, r) && InTime(s, r))
    ensures PlanFor(s, r).Ok? ==> (PlanFor(s, r).value.noOp <==> Done(s, r))
  {
    hide LifecycleState.WellFormed, MakePlan, Done, Ready, InTime;
    match r {
      case RecordDraft(_) => RecordDecided(s, r);
      case TransitionDraft(_, _, _, _) => TransitionDecided(s, r);
      case RejectDraft(_, _, _) => RejectionDecided(s, r);
      case ApproveDraft(_, _, _) => ApprovalDecided(s, r);
      case ActivateVersion(_, _, _) => ActivationDecided(s, r);
      case ActivateFromDraft(_, _, _) => DraftActivationDecided(s, r);
      case Deactivate(_, _) => DeactivationDecided(s, r);
      case Rollback(b, d, now) =>
        RollbackIsActivation(s, b, d, now);
        ActivationDecided(s, ActivateVersion(b, d, now));
        RollbackAlike(s, b, d, now);
      case SetPermission(_, _, _, _, _, _) => PermissionDecided(s, r);
      case Archive(_, _, _) => ArchivalDecided(s, r);
    }
    hide Sound;
    CandidateSound(s, r);
    if Candidate(s, r).Ok? {
      MakePlanSound(s, Operation(r), Candidate(s, r).value);
    }
  }

  lemma RollbackAlike(s: LifecycleState, b: string, d: string, now: real)
    ensures Done(s, Rollback(b, d, now)) == Done(s, ActivateVersion(b, d, now))
    ensures Ready(s, Rollback(b, d, now)) == Ready(s, ActivateVersion(b, d, now))
    ensures InTime(s, Rollback(b, d, now)) == InTime(s, ActivateVersion(b, d, now))
  {
    hide TimeAllows, Find;
  }
}
