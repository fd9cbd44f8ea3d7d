/**
 What a plan does to the content: it reaches its goal, leaves every other draft and bundle alone,
 and moves records only along the life-cycle diagram.
 */
module LifecycleEvolution {
  import opened Wrappers
  import opened Text
  import opened Lifecycle
  import opened LifecycleCodec
  import opened LifecyclePlans
  import opened LifecyclePlanSafety

  /** A draft keeps its identity, only ever appends evidence and follows the diagram. */
  predicate DraftMoved(a: DraftRecord, b: DraftRecord) {
    a == b || (
      && b.draftId == a.draftId && b.bundleId == a.bundleId && b.digest == a.digest && b.createdAt == a.createdAt
      && a.updatedAt <= b.updatedAt
      && a.evidence <= b.evidence
      && Moves(a.state, b.state))
  }

  predicate VersionFollows(from: VersionState, to: VersionState) {
    match from
    case Approved => to.Activated?
    case Activated => to.Deprecated?
    case Deprecated => to.Activated? || to.Archived?
    case Archived => false
  }

  predicate VersionMoved(a: VersionRecord, b: VersionRecord) {
    a == b || (
      && b.bundleId == a.bundleId && b.digest == a.digest
      && b.createdAt == a.createdAt && b.approvedAt == a.approvedAt
      && (a.sourceDraftId.Some? ==> b.sourceDraftId == a.sourceDraftId)
      && VersionFollows(a.state, b.state))
  }

  /** The version came from this draft, which is approved and has the same content. */
  predicate Backs(s: LifecycleState, v: VersionRecord) {
    && v.sourceDraftId.Some?
    && v.sourceDraftId.value in s.drafts
    && var r := s.drafts[v.sourceDraftId.value];
    r.state.Approved? && r.bundleId == v.bundleId && r.digest == v.digest
  }

  ghost predicate DraftsEvolve(s: LifecycleState, t: LifecycleState) {
    && (forall id :: id in s.drafts ==> id in t.drafts && DraftMoved(s.drafts[id], t.drafts[id]))
    && (forall id :: id in t.drafts && id !in s.drafts ==> t.drafts[id].state.Draft?)
  }

  ghost predicate VersionsEvolve(s: LifecycleState, t: LifecycleState) {
    && (forall b, d :: Find(s.versions, b, d).Some? ==>
          Find(t.versions, b, d).Some? && VersionMoved(Find(s.versions, b, d).value, Find(t.versions, b, d).value))
    && (forall b, d :: Find(t.versions, b, d).Some? && Find(s.versions, b, d).None? ==>
          var v := Find(t.versions, b, d).value;
          (v.state.Approved? || v.state.Activated?) && Backs(t, v))
  }

  ghost predicate Evolves(s: LifecycleState, t: LifecycleState) {
    DraftsEvolve(s, t) && VersionsEvolve(s, t)
  }

  // Replacing one draft by a moved one, or adding a fresh one.
  lemma DraftSetEvolves(s: LifecycleState, t: LifecycleState, r: DraftRecord)
    requires t.drafts == s.drafts[r.draftId := r]
    requires if r.draftId in s.drafts then DraftMoved(s.drafts[r.draftId], r) else r.state.Draft?
    ensures DraftsEvolve(s, t)
  {
    hide DraftMoved;
    forall id | id in s.drafts ensures DraftMoved(s.drafts[id], t.drafts[id]) {
      if id != r.draftId {
        Unmoved(s.drafts[id]);
      }
    }
  }

  lemma Unmoved(r: DraftRecord)
    ensures DraftMoved(r, r)
  {
  }

  lemma AdvanceMoves(r: DraftRecord, target: DraftState, now: real, item: Option<Evidence>)
    requires Moves(r.state, target) && r.updatedAt <= now
    ensures DraftMoved(r, Advance(r, target, now, item))
  {
  }

  lemma DraftRequestsEvolve(s: LifecycleState, r: Request)
    requires s.WellFormed() && (r.RecordDraft? || r.TransitionDraft? || r.RejectDraft?)
    ensures Candidate(s, r).Ok? ==> Evolves(s, Candidate(s, r).value)
  {
    hide LifecycleState.WellFormed, DraftRecord.Ok, Evidence.Ok, IsDraftId, EvidenceStates, DraftMoved, Advance;
    var c := Candidate(s, r);
    if c.Ok? {
      SameVersionsEvolve(s, c.value);
      if c.value == s {
        forall id | id in s.drafts { Unmoved(s.drafts[id]); }
      } else if r.RecordDraft? {
        if r.record.draftId in s.drafts { Unmoved(r.record); }
        DraftSetEvolves(s, c.value, r.record);
      } else {
        RecordOf(s, r.draftId);
        var d := s.drafts[r.draftId];
        var target := if r.TransitionDraft? then r.target else DraftState.Rejected;
        var item := if r.TransitionDraft? then r.item else Some(r.evidence);
        AdvanceMoves(d, target, r.now, item);
        AdvanceShape(d, target, r.now, item);
        assert c.value == SetDraft(s, r.draftId, Advance(d, target, r.now, item));
        DraftSetEvolves(s, c.value, Advance(d, target, r.now, item));
      }
    }
  }

  lemma SameVersionsEvolve(s: LifecycleState, t: LifecycleState)
    requires t.versions == s.versions
    ensures VersionsEvolve(s, t)
  {
  }

  // A version map in which the running version of one bundle may be demoted and one version set.
  lemma SwitchEvolves(s: LifecycleState, t: LifecycleState, demoted: Versions, target: VersionRecord, now: real)
    requires s.ActiveOk()
    requires DemotesOnly(s, target.bundleId, now, demoted) || demoted == s.versions
    requires t.versions == SetVersion(demoted, target)
    requires target.bundleId in s.active && s.active[target.bundleId] == target.digest ==> demoted == s.versions
    requires match s.Version(target.bundleId, target.digest)
             case Some(v) => VersionMoved(v, target)
             case None => (target.state.Approved? || target.state.Activated?) && Backs(t, target)
    ensures VersionsEvolve(s, t)
  {
    hide IsName, IsDigest, Backs;
  }

  lemma PromoteMoves(v: VersionRecord, now: real)
    requires v.state.Approved? || v.state.Deprecated?
    ensures VersionMoved(v, Promote(v, now))
    ensures v.state.Deprecated? ==> VersionMoved(v, Retired(v, now))
  {
  }

  lemma SameDraftsEvolve(s: LifecycleState, t: LifecycleState)
    requires t.drafts == s.drafts
    ensures DraftsEvolve(s, t)
  {
  }

  // A version that is neither archived nor the running one can still be activated.
  lemma Promotable(s: LifecycleState, b: string, d: string)
    requires s.WellFormed() && s.Version(b, d).Some? && !s.Version(b, d).value.state.Archived?
    requires !(b in s.active && s.active[b] == d)
    ensures var v := s.Version(b, d).value;
            (v.state.Approved? || v.state.Deprecated?) && v.bundleId == b && v.digest == d
  {
    hide VersionRecord.Ok, DraftRecord.Ok, LifecycleState.GrantsOk, IsName, IsDigest;
  }

  lemma ActivationEvolves(s: LifecycleState, b: string, d: string, now: real)
    requires s.WellFormed() && CandidateActivate(s, b, d, now).Ok?
    ensures Evolves(s, CandidateActivate(s, b, d, now).value)
  {
    var t := CandidateActivate(s, b, d, now).value;
    hide LifecycleState.WellFormed, IsName, IsDigest, Find, Promote;
    hide VersionMoved, DemotesOnly, VersionsEvolve, SetVersion, Demote;
    SameDraftsEvolve(s, t);
    if t == s {
      SameVersionsEvolve(s, t);
    } else {
      Promotable(s, b, d);
      var v := s.Version(b, d).value;
      PromoteMoves(v, now);
      PromotedOk(s, b, d, now);
      DemoteOk(s, b, now);
      SwitchEvolves(s, t, Demote(s.versions, s.active, b, now).value, Promote(v, now), now);
    }
  }

  lemma DeactivationEvolves(s: LifecycleState, b: string, now: real)
    requires s.WellFormed() && CandidateDeactivate(s, b, now).Ok?
    ensures Evolves(s, CandidateDeactivate(s, b, now).value)
  {
    hide VersionRecord.Ok, DraftRecord.Ok, LifecycleState.GrantsOk, LifecycleState.VersionsOk, IsName, IsDigest;
    var t := CandidateDeactivate(s, b, now).value;
    SameDraftsEvolve(s, t);
    if b in s.active {
      DemoteOk(s, b, now);
    }
  }

  lemma ArchiveEvolves(s: LifecycleState, b: string, d: string, now: real)
    requires s.WellFormed() && CandidateArchive(s, b, d, now).Ok?
    ensures Evolves(s, CandidateArchive(s, b, d, now).value)
  {
    var t := CandidateArchive(s, b, d, now).value;
    VersionAt(s, b, d);
    hide LifecycleState.WellFormed, IsName, IsDigest, Find, VersionMoved;
    hide VersionsEvolve, SetVersion, VersionPrefix, WithoutPrefix, VersionRecord.Ok;
    SameDraftsEvolve(s, t);
    if t == s {
      SameVersionsEvolve(s, t);
    } else {
      PromoteMoves(s.Version(b, d).value, now);
      SwitchEvolves(s, t, s.versions, Retired(s.Version(b, d).value, now), now);
    }
  }

  // An approval's two parts: the advanced draft, and its version unless there is one already.
  lemma ApprovedEvolves(s: LifecycleState, t: LifecycleState, draftId: string, now: real)
    requires s.WellFormed() && draftId in s.drafts && s.drafts[draftId].state.AwaitingApproval?
             && s.drafts[draftId].updatedAt <= now
    requires var r := s.drafts[draftId];
             && t.drafts == s.drafts[draftId := Advance(r, DraftState.Approved, now, None)]
             && t.versions == (if s.Version(r.bundleId, r.digest).Some? then s.versions
                               else SetVersion(s.versions, NewVersion(r, VersionState.Approved, now)))
    ensures Evolves(s, t)
  {
    assert s.ActiveOk();
    hide LifecycleState.WellFormed, IsDraftId, Find, VersionMoved, DraftMoved;
    hide VersionsEvolve, DraftsEvolve, SetVersion, DraftRecord.Ok, Advance;
    RecordOf(s, draftId);
    var r := s.drafts[draftId];
    var a := Advance(r, DraftState.Approved, now, None);
    AdvanceShape(r, DraftState.Approved, now, None);
    AdvanceMoves(r, DraftState.Approved, now, None);
    DraftSetEvolves(s, t, a);
    if s.Version(r.bundleId, r.digest).Some? {
      SameVersionsEvolve(s, t);
    } else {
      var v := NewVersion(r, VersionState.Approved, now);
      assert t.drafts[draftId] == a && Backs(t, v);
      SwitchEvolves(s, t, s.versions, v, now);
    }
  }

  lemma ApprovalEvolves(s: LifecycleState, draftId: string, now: real, expected: Option<string>)
    requires s.WellFormed() && CandidateApprove(s, draftId, now, expected).Ok?
    ensures Evolves(s, CandidateApprove(s, draftId, now, expected).value)
  {
    hide LifecycleState.WellFormed, IsDraftId, Find, VersionMoved, DraftMoved;
    hide VersionsEvolve, DraftsEvolve, SetVersion, DraftRecord.Ok, Advance;
    var t := CandidateApprove(s, draftId, now, expected).value;
    if s.drafts[draftId].state.AwaitingApproval? {
      ApprovedEvolves(s, t, draftId, now);
    } else {
      SameDraftsEvolve(s, t);
      SameVersionsEvolve(s, t);
    }
  }

  lemma TargetMoves(s: LifecycleState, r: DraftRecord, now: real)
    requires s.WellFormed() && ActivatedTarget(r, s.Version(r.bundleId, r.digest), now).Ok?
    ensures var found := s.Version(r.bundleId, r.digest);
            var t := ActivatedTarget(r, found, now).value;
            if found.None? then t == NewVersion(r, VersionState.Activated, now)
            else !found.value.state.Archived? ==> VersionMoved(found.value, t)
  {
    hide LifecycleState.WellFormed;
  }

  lemma DraftActivationEvolves(s: LifecycleState, draftId: string, now: real, expected: Option<string>)
    requires s.WellFormed() && CandidateActivateDraft(s, draftId, now, expected).Ok?
    ensures Evolves(s, CandidateActivateDraft(s, draftId, now, expected).value)
  {
    var t := CandidateActivateDraft(s, draftId, now, expected).value;
    hide LifecycleState.WellFormed, IsDraftId, Find, VersionMoved, DraftMoved, VersionsEvolve, DraftsEvolve, SetVersion;
    hide DraftRecord.Ok, Advance, ActivatedTarget, Demote, DemotesOnly, VersionRecord.Ok;
    RecordOf(s, draftId);
    var r := s.drafts[draftId];
    var a := Advance(r, DraftState.Approved, now, None);
    AdvanceShape(r, DraftState.Approved, now, None);
    if r.state.AwaitingApproval? {
      AdvanceMoves(r, DraftState.Approved, now, None);
      DraftSetEvolves(s, t, a);
      var target := ActivatedTarget(r, s.Version(r.bundleId, r.digest), now).value;
      TargetMoves(s, r, now);
      TargetOk(s, r, now);
      assert t.drafts[draftId] == a;
      if r.bundleId in s.active && s.active[r.bundleId] == r.digest {
        SwitchEvolves(s, t, s.versions, target, now);
      } else {
        DemoteOk(s, r.bundleId, now);
        SwitchEvolves(s, t, Demote(s.versions, s.active, r.bundleId, now).value, target, now);
      }
    } else {
      SameDraftsEvolve(s, t);
      SameVersionsEvolve(s, t);
    }
  }

  /** Every plan moves every record along the diagram, keeps all of them, and backs new versions. */
  lemma PlansEvolve(s: LifecycleState, r: Request)
    requires s.WellFormed() && Candidate(s, r).Ok?
    ensures Evolves(s, Candidate(s, r).value)
  {
    hide LifecycleState.WellFormed, DraftsEvolve, VersionsEvolve;
    match r {
      case RecordDraft(_) => DraftRequestsEvolve(s, r);
      case TransitionDraft(_, _, _, _) => DraftRequestsEvolve(s, r);
      case RejectDraft(_, _, _) => DraftRequestsEvolve(s, r);
      case ApproveDraft(id, now, expected) => ApprovalEvolves(s, id, now, expected);
      case ActivateVersion(b, d, now) => ActivationEvolves(s, b, d, now);
      case ActivateFromDraft(id, now, expected) => DraftActivationEvolves(s, id, now, expected);
      case Deactivate(b, now) => DeactivationEvolves(s, b, now);
      case Rollback(b, d, now) => RollbackIsActivation(s, b, d, now); ActivationEvolves(s, b, d, now);
      case SetPermission(_, _, _, _, _, _) =>
        SameDraftsEvolve(s, Candidate(s, r).value);
        SameVersionsEvolve(s, Candidate(s, r).value);
      case Archive(b, d, now) => ArchiveEvolves(s, b, d, now);
    }
  }

  /* ---------- goals and frames ---------- */

  function SubjectDraft(r: Request): Option<string> {
    match r
    case RecordDraft(record) => Some(record.draftId)
    case TransitionDraft(id, _, _, _) => Some(id)
    case RejectDraft(id, _, _) => Some(id)
    case ApproveDraft(id, _, _) => Some(id)
    case ActivateFromDraft(id, _, _) => Some(id)
    case _ => None
  }

  function SubjectBundle(s: LifecycleState, r: Request): Option<string> {
    match r
    case ApproveDraft(id, _, _) => if id in s.drafts then Some(s.drafts[id].bundleId) else None
    case ActivateFromDraft(id, _, _) => if id in s.drafts then Some(s.drafts[id].bundleId) else None
    case ActivateVersion(b, _, _) => Some(b)
    case Deactivate(b, _) => Some(b)
    case Rollback(b, _, _) => Some(b)
    case SetPermission(b, _, _, _, _, _) => Some(b)
    case Archive(b, _, _) => Some(b)
    case _ => None
  }

  ghost predicate SameDraftsBut(s: LifecycleState, t: LifecycleState, subject: Option<string>) {
    forall id :: Some(id) != subject ==>
      (id in s.drafts <==> id in t.drafts) && (id in s.drafts ==> t.drafts[id] == s.drafts[id])
  }

  ghost predicate SameBundlesBut(s: LifecycleState, t: LifecycleState, subject: Option<string>) {
    && (forall b, d :: Some(b) != subject ==> Find(t.versions, b, d) == Find(s.versions, b, d))
    && (forall b :: Some(b) != subject ==>
          (b in s.active <==> b in t.active) && (b in s.active ==> t.active[b] == s.active[b]))
  }

  ghost predicate SameGrantsBut(s: LifecycleState, t: LifecycleState, subject: Option<string>) {
    forall key :: ParseKey(key).Some? && Some(ParseKey(key).value.bundleId) != subject ==>
      (key in s.grants <==> key in t.grants) && (key in s.grants ==> t.grants[key] == s.grants[key])
  }

  ghost predicate Reached(s: LifecycleState, r: Request, t: LifecycleState) {
    match r
    case RecordDraft(record) => record.draftId in t.drafts && t.drafts[record.draftId] == record
    case TransitionDraft(id, target, _, _) => id in t.drafts && t.drafts[id].state == target
    case RejectDraft(id, _, _) => id in t.drafts && t.drafts[id].state.Rejected?
    case ApproveDraft(id, _, _) => id in t.drafts && t.drafts[id].state.Approved? && t.active == s.active
    case ActivateVersion(b, d, _) => b in t.active && t.active[b] == d
    case Rollback(b, d, _) => b in t.active && t.active[b] == d
    case ActivateFromDraft(id, _, _) =>
      && id in t.drafts && t.drafts[id].state.Approved?
      && t.drafts[id].bundleId in t.active && t.active[t.drafts[id].bundleId] == t.drafts[id].digest
    case Deactivate(b, _) => b !in t.active
    case SetPermission(b, d, tool, allow, who, _) =>
      var key := KeyText(PermissionKey(b, d, tool));
      (key in t.grants <==> allow) && (allow ==> Some(t.grants[key].approvedBy) == who)
    case Archive(b, d, _) =>
      && t.Version(b, d).Some? && t.Version(b, d).value.state.Archived?
      && forall key :: key in t.grants && ParseKey(key).Some? ==>
           !(ParseKey(key).value.bundleId == b && ParseKey(key).value.digest == d)
  }

  lemma DraftFrame(s: LifecycleState, r: Request)
    requires s.WellFormed() && Candidate(s, r).Ok?
    ensures SameDraftsBut(s, Candidate(s, r).value, SubjectDraft(r))
  {
    hide LifecycleState.WellFormed, DraftRecord.Ok, Evidence.Ok, SetVersion, Find, ParseKey, Advance, EvidenceStates;
    hide Demote, IsDraftId, IsName, IsDigest, ActivatedTarget, WithoutPrefix, KeyText, VersionPrefix;
    match r {
      case RecordDraft(record) =>
      case TransitionDraft(id, target, now, item) =>
      case _ =>
    }
  }

  // Setting one version, with its bundle's running version possibly demoted, stays inside the bundle.
  lemma SwitchFrame(s: LifecycleState, t: LifecycleState, b: string, demoted: Versions, now: real)
    requires DemotesOnly(s, b, now, demoted) || demoted == s.versions
    requires t.versions == demoted || exists v: VersionRecord :: v.bundleId == b && t.versions == SetVersion(demoted, v)
    requires forall x :: x != b ==> (x in s.active <==> x in t.active) && (x in s.active ==> t.active[x] == s.active[x])
    ensures SameBundlesBut(s, t, Some(b))
  {
  }

  lemma VersionRequestFrame(s: LifecycleState, r: Request)
    requires s.WellFormed() && Candidate(s, r).Ok? && (r.ActivateVersion? || r.Deactivate? || r.Archive?)
    ensures SameBundlesBut(s, Candidate(s, r).value, SubjectBundle(s, r))
  {
    hide LifecycleState.WellFormed, VersionRecord.Ok, IsName, IsDigest, Find, SetVersion, Demote, DemotesOnly;
    hide Promote, Retired, WithoutPrefix, SameBundlesBut;
    var t := Candidate(s, r).value;
    if t == s {
      SwitchFrame(s, t, r.bundleId, s.versions, 0.0);
    } else if r.ActivateVersion? {
      Promotable(s, r.bundleId, r.digest);
      PromotedOk(s, r.bundleId, r.digest, r.now);
      DemoteOk(s, r.bundleId, r.now);
      SwitchFrame(s, t, r.bundleId, Demote(s.versions, s.active, r.bundleId, r.now).value, r.now);
    } else if r.Deactivate? {
      DemoteOk(s, r.bundleId, r.now);
      SwitchFrame(s, t, r.bundleId, t.versions, r.now);
    } else {
      RetiredKeepsVersions(s, r.bundleId, r.digest, r.now);
      SwitchFrame(s, t, r.bundleId, s.versions, r.now);
    }
  }

  lemma DraftVersionFrame(s: LifecycleState, r: Request)
    requires s.WellFormed() && Candidate(s, r).Ok? && (r.ApproveDraft? || r.ActivateFromDraft?)
    ensures SameBundlesBut(s, Candidate(s, r).value, SubjectBundle(s, r))
  {
    hide LifecycleState.WellFormed, VersionRecord.Ok, DraftRecord.Ok, IsDraftId, Find, SetVersion, Demote, DemotesOnly;
    hide Advance, ActivatedTarget, SameBundlesBut;
    var t := Candidate(s, r).value;
    RecordOf(s, r.draftId);
    var d := s.drafts[r.draftId];
    if r.ApproveDraft? || t == s || (d.bundleId in s.active && s.active[d.bundleId] == d.digest) {
      if r.ActivateFromDraft? && t != s {
        TargetOk(s, d, r.now);
      }
      SwitchFrame(s, t, d.bundleId, s.versions, 0.0);
    } else {
      TargetOk(s, d, r.now);
      DemoteOk(s, d.bundleId, r.now);
      SwitchFrame(s, t, d.bundleId, Demote(s.versions, s.active, d.bundleId, r.now).value, r.now);
    }
  }

  lemma GrantFrame(s: LifecycleState, r: Request)
    requires s.WellFormed() && Candidate(s, r).Ok? && (r.SetPermission? || r.Archive?)
    ensures SameGrantsBut(s, Candidate(s, r).value, SubjectBundle(s, r))
  {
    hide LifecycleState.WellFormed, SetVersion, Find, ParseKey, IsName, IsDigest, KeyText, VersionPrefix, Grant.Ok;
    match r {
      case SetPermission(b, d, tool, allow, who, now) =>
        KeyRoundTrip(KeyText(PermissionKey(b, d, tool)), PermissionKey(b, d, tool));
      case Archive(b, d, now) =>
        forall key | ParseKey(key).Some? && ParseKey(key).value.bundleId != b
          ensures !(VersionPrefix(b, d) <= key)
        {
          PrefixIsVersion(key, ParseKey(key).value, b, d);
        }
    }
  }

  lemma UntouchedFields(s: LifecycleState, r: Request)
    requires Candidate(s, r).Ok?
    ensures var t := Candidate(s, r).value;
            && (!r.SetPermission? && !r.Archive? ==> t.grants == s.grants)
            && (r.SetPermission? || r.RecordDraft? || r.TransitionDraft? || r.RejectDraft? ==>
                  t.versions == s.versions && t.active == s.active)
  {
    hide LifecycleState.WellFormed, SetVersion, IsDraftId, IsName, IsDigest, Demote, Advance, DraftRecord.Ok;
    hide EvidenceStates, ActivatedTarget, Find, WithoutPrefix, KeyText, CheckTransition, CheckRejection, Grant.Ok;
  }

  /** A plan leaves every other draft, and every other bundle's versions, activation and grants, as they were. */
  lemma PlansFrame(s: LifecycleState, r: Request)
    requires s.WellFormed() && Candidate(s, r).Ok?
    ensures SameDraftsBut(s, Candidate(s, r).value, SubjectDraft(r))
    ensures SameBundlesBut(s, Candidate(s, r).value, SubjectBundle(s, r))
    ensures SameGrantsBut(s, Candidate(s, r).value, SubjectBundle(s, r))
  {
    hide LifecycleState.WellFormed, SameDraftsBut;
    DraftFrame(s, r);
    UntouchedFields(s, r);
    if r.Rollback? {
      RollbackIsActivation(s, r.bundleId, r.digest, r.now);
      VersionRequestFrame(s, ActivateVersion(r.bundleId, r.digest, r.now));
    }
    hide Candidate;
    if r.ApproveDraft? || r.ActivateFromDraft? {
      DraftVersionFrame(s, r);
    } else if r.ActivateVersion? || r.Deactivate? || r.Archive? {
      VersionRequestFrame(s, r);
    }
    if r.SetPermission? || r.Archive? {
      GrantFrame(s, r);
    }
  }

  lemma ArchiveReaches(s: LifecycleState, b: string, d: string, now: real)
    requires s.WellFormed() && CandidateArchive(s, b, d, now).Ok?
    ensures Reached(s, Request.Archive(b, d, now), CandidateArchive(s, b, d, now).value)
  {
    VersionAt(s, b, d);
    hide DraftRecord.Ok, VersionRecord.Ok, ParseKey, IsName, IsDigest, Grant.Ok, VersionPrefix;
    var t := CandidateArchive(s, b, d, now).value;
    forall key | key in t.grants && ParseKey(key).Some?
      ensures !(ParseKey(key).value.bundleId == b && ParseKey(key).value.digest == d)
    {
      if t != s {
        ArchiveDropsGrants(s, b, d, key);
      } else {
        assert t.GrantTarget(key).Some?;
      }
    }
  }

  /** An accepted request reaches its goal. */
  lemma PlansReach(s: LifecycleState, r: Request)
    requires s.WellFormed() && Candidate(s, r).Ok?
    ensures Reached(s, r, Candidate(s, r).value)
  {
    hide LifecycleState.WellFormed, DraftRecord.Ok, VersionRecord.Ok, Evidence.Ok;
    hide ParseKey, IsDraftId, IsName, IsDigest;
    hide EvidenceStates, Grant.Ok, SetVersion, Demote, Find, ActivatedTarget, VersionPrefix;
    match r {
      case Archive(b, d, now) => ArchiveReaches(s, b, d, now);
      case ActivateFromDraft(id, now, expected) => RecordOf(s, id);
      case _ =>
    }
  }
}
