/** No planner ever breaks a constructor check, and what each plan changes and leaves alone. */
module LifecyclePlanSafety {
  import opened Wrappers
  import opened Text
  import opened Lifecycle
  import opened LifecycleCodec
  import opened LifecyclePlans

  /** What every plan made from a well-formed state satisfies. */
  predicate Sound(s: LifecycleState, p: Plan) {
    && p.Ok()
    && p.after.WellFormed()
    && p.expectedRevision == s.revision
    && p.beforeDigest == StateDigest(s)
    && (p.noOp <==> p.after == s)
    && (p.noOp <==> p.after.SameContent(s))
    && p.after.revision == (if p.noOp then s.revision else s.revision + 1)
  }

  lemma MakePlanSound(s: LifecycleState, operation: string, c: LifecycleState)
    requires s.WellFormed() && c.WellFormed() && c.revision == s.revision
    ensures var r := MakePlan(s, operation, c);
            r.Ok? && Sound(s, r.value) && r.value.after.SameContent(c)
  {
    hide LifecycleState.DraftsOk, LifecycleState.VersionsOk, LifecycleState.ActiveOk;
    hide LifecycleState.GrantsOk, LifecycleState.ApprovedBacked;
    DigestSeparates(c, s);
    var after := c.(revision := s.revision + 1);
    RevisionIrrelevant(c, s.revision + 1);
    DigestSeparates(after, s);
  }

  lemma RevisionIrrelevant(c: LifecycleState, revision: int)
    requires c.WellFormed() && revision >= 0
    ensures c.(revision := revision).WellFormed()
  {
    var d := c.(revision := revision);
    assert forall key :: key in d.grants && ParseKey(key).Some? ==> d.GrantTarget(key) == c.GrantTarget(key);
  }

  /* ---------- drafts ---------- */

  lemma EvidenceAppended(r: DraftRecord, target: DraftState, item: Evidence, now: real)
    requires r.Ok() && item.Ok() && item.state == target && item.draftDigest == r.digest
    requires item.recordedAt == now >= r.updatedAt
    requires target !in Allowed(r.state) && !target.AwaitingApproval? && !target.Approved?
    requires Required(target) <= Required(r.state) + {target}
    requires Allowed(r.state) + {target} <= Allowed(target)
    ensures r.(state := target, updatedAt := now, evidence := r.evidence + [item]).Ok()
  {
    hide Evidence.Ok, Required, Allowed;
    var e := r.evidence + [item];
    assert forall i :: 0 <= i < |r.evidence| ==> e[i] == r.evidence[i] && e[i].state in EvidenceStates(r.evidence);
    assert EvidenceStates(e) == EvidenceStates(r.evidence) + {target} by {
      assert e[|r.evidence|] == item;
      forall x | x in EvidenceStates(r.evidence) ensures x in EvidenceStates(e) {
        var i :| 0 <= i < |r.evidence| && r.evidence[i].state == x;
        assert e[i].state == x;
      }
    }
  }

  lemma ApprovalPending(r: DraftRecord, target: DraftState, now: real)
    requires r.Ok() && now >= r.updatedAt
    requires (r.state.ModelReviewed? && target.AwaitingApproval?) || (r.state.AwaitingApproval? && target.Approved?)
    ensures r.(state := target, updatedAt := now).Ok()
  {
    hide Evidence.Ok;
  }

  // Replacing one draft that is not approved keeps the state well formed.
  lemma DraftReplaced(s: LifecycleState, r: DraftRecord)
    requires s.WellFormed() && r.Ok() && !r.state.Approved?
    ensures SetDraft(s, r.draftId, r).WellFormed() && SetDraft(s, r.draftId, r).revision == s.revision
  {
    hide DraftRecord.Ok, VersionRecord.Ok, Grant.Ok, ParseKey;
  }

  /** The candidate of a planner is well formed at the same revision, or the refusal is a regular one. */
  predicate CandidateOk(s: LifecycleState, c: Planned<LifecycleState>) {
    if c.Ok? then c.value.WellFormed() && c.value.revision == s.revision else c.error != Broken
  }

  lemma RecordSound(s: LifecycleState, record: DraftRecord)
    requires s.WellFormed()
    ensures CandidateOk(s, CandidateRecord(s, record))
  {
    hide LifecycleState.WellFormed, DraftRecord.Ok;
    if CandidateRecord(s, record).Ok? {
      DraftReplaced(s, record);
    }
  }

  lemma RecordOf(s: LifecycleState, draftId: string)
    requires s.WellFormed()
    ensures draftId in s.drafts ==> s.drafts[draftId].Ok() && s.drafts[draftId].draftId == draftId
  {
  }

  predicate Moves(from: DraftState, to: DraftState) {
    || Follows(from, to)
    || (to.Rejected? && !from.Rejected? && !from.Approved?)
    || (from.AwaitingApproval? && to.Approved?)
  }

  lemma AllowedGrows(from: DraftState, to: DraftState)
    requires Moves(from, to) && TakesEvidence(to)
    ensures to !in Allowed(from)
    ensures Required(to) <= Required(from) + {to}
    ensures Allowed(from) + {to} <= Allowed(to)
  {
    match from { case Draft => case _ => }
  }

  lemma AdvanceOk(r: DraftRecord, target: DraftState, now: real, item: Option<Evidence>)
    requires r.Ok() && r.updatedAt <= now && Moves(r.state, target)
    requires item.Some? <==> TakesEvidence(target)
    requires item.Some? ==> item.value.Ok() && item.value.state == target && item.value.draftDigest == r.digest
                            && item.value.recordedAt == now
    ensures Advance(r, target, now, item).Ok()
  {
    hide DraftRecord.Ok, Evidence.Ok, Required, Allowed;
    if item.Some? {
      AllowedGrows(r.state, target);
      EvidenceAppended(r, target, item.value, now);
    } else {
      ApprovalPending(r, target, now);
    }
  }

  lemma AdvanceShape(r: DraftRecord, target: DraftState, now: real, item: Option<Evidence>)
    ensures var a := Advance(r, target, now, item);
            a.state == target && a.draftId == r.draftId && a.bundleId == r.bundleId && a.digest == r.digest
  {
  }

  lemma CheckedTransitionOk(r: DraftRecord, target: DraftState, now: real, item: Option<Evidence>)
    requires r.Ok()
    ensures CheckTransition(r, target, now, item).Fail? ==> CheckTransition(r, target, now, item).error != Broken
    ensures CheckTransition(r, target, now, item).Pass? ==>
              Advance(r, target, now, item).Ok() && !target.Approved?
  {
    hide DraftRecord.Ok, Evidence.Ok, Advance;
    if CheckTransition(r, target, now, item).Pass? {
      AdvanceOk(r, target, now, item);
    }
  }

  lemma TransitionSound(s: LifecycleState, draftId: string, target: DraftState, now: real, item: Option<Evidence>)
    requires s.WellFormed()
    ensures CandidateOk(s, CandidateTransition(s, draftId, target, now, item))
  {
    hide LifecycleState.WellFormed, DraftRecord.Ok, Advance, CheckTransition, EvidenceStates, IsDraftId, SetDraft;
    RecordOf(s, draftId);
    if draftId in s.drafts {
      var r := s.drafts[draftId];
      CheckedTransitionOk(r, target, now, item);
      AdvanceShape(r, target, now, item);
      if CheckTransition(r, target, now, item).Pass? {
        DraftReplaced(s, Advance(r, target, now, item));
      }
    }
  }

  lemma RejectSound(s: LifecycleState, draftId: string, now: real, evidence: Evidence)
    requires s.WellFormed()
    ensures CandidateOk(s, CandidateReject(s, draftId, now, evidence))
  {
    hide LifecycleState.WellFormed, DraftRecord.Ok, Evidence.Ok, Advance, EvidenceStates, IsDraftId, SetDraft;
    RecordOf(s, draftId);
    if CandidateReject(s, draftId, now, evidence).Ok? && !s.drafts[draftId].state.Rejected? {
      var r := s.drafts[draftId];
      AdvanceOk(r, DraftState.Rejected, now, Some(evidence));
      AdvanceShape(r, DraftState.Rejected, now, Some(evidence));
      DraftReplaced(s, Advance(r, DraftState.Rejected, now, Some(evidence)));
    }
  }

  /* ---------- versions ---------- */

  /** Nothing is deleted and nothing becomes archived. */
  ghost predicate Retains(before: Versions, after: Versions) {
    forall b, d :: Find(before, b, d).Some? ==>
      Find(after, b, d).Some? && (Find(after, b, d).value.state.Archived? ==> Find(before, b, d).value.state.Archived?)
  }

  lemma GrantsCarryOver(s: LifecycleState, t: LifecycleState)
    requires s.GrantsOk() && t.grants == s.grants && Retains(s.versions, t.versions)
    ensures t.GrantsOk()
  {
    hide ParseKey, Grant.Ok;
    forall key | key in t.grants && ParseKey(key).Some?
      ensures t.GrantTarget(key).Some? && !t.GrantTarget(key).value.state.Archived?
    {
      var k := ParseKey(key).value;
      assert s.GrantTarget(key) == Find(s.versions, k.bundleId, k.digest);
    }
  }

  lemma Reassembled(s: LifecycleState, t: LifecycleState)
    requires s.WellFormed() && t.revision == s.revision && t.grants == s.grants
    requires t.VersionsOk() && t.ActiveOk() && Retains(s.versions, t.versions)
    requires t.drafts == s.drafts
    ensures t.WellFormed()
  {
    hide DraftRecord.Ok, LifecycleState.VersionsOk, LifecycleState.ActiveOk, LifecycleState.GrantsOk;
    GrantsCarryOver(s, t);
  }

  // Approving a draft once its version exists.
  lemma DraftApproved(s: LifecycleState, r: DraftRecord)
    requires s.WellFormed() && r.Ok() && s.Version(r.bundleId, r.digest).Some?
    ensures SetDraft(s, r.draftId, r).WellFormed() && SetDraft(s, r.draftId, r).revision == s.revision
  {
    hide DraftRecord.Ok, VersionRecord.Ok, Grant.Ok, ParseKey;
  }

  lemma PutOk(s: LifecycleState, v: VersionRecord)
    requires s.VersionsOk() && v.Ok()
    ensures s.(versions := SetVersion(s.versions, v)).VersionsOk()
  {
    assert IsName(v.bundleId);
    hide VersionRecord.Ok;
  }

  lemma VersionAt(s: LifecycleState, b: string, d: string)
    requires s.VersionsOk() && s.Version(b, d).Some?
    ensures var v := s.Version(b, d).value; v.Ok() && v.bundleId == b && v.digest == d
  {
    hide VersionRecord.Ok;
  }

  lemma RunningVersion(s: LifecycleState, b: string)
    requires s.ActiveOk() && b in s.active
    ensures s.Version(b, s.active[b]).Some? && s.Version(b, s.active[b]).value.state.Activated?
  {
  }

  lemma RecordChangesOk(v: VersionRecord, now: real)
    requires v.Ok() && now >= 0.0
    ensures v.state.Activated? && NotEarlier(now, v.activatedAt) ==> Demoted(v, now).Ok()
    ensures TimeAllows(v, now) ==> Promote(v, now).Ok()
    ensures TimeAllows(v, now) && v.state.Deprecated? ==> Retired(v, now).Ok()
  {
  }

  // Demotion changes exactly the running version of the bundle.
  ghost predicate DemotesOnly(s: LifecycleState, b: string, now: real, r: Versions) {
    forall x, y :: Find(r, x, y) ==
      if b in s.active && x == b && y == s.active[b] && Find(s.versions, x, y).Some?
      then Some(Demoted(Find(s.versions, x, y).value, now)) else Find(s.versions, x, y)
  }

  lemma DemoteOk(s: LifecycleState, b: string, now: real)
    requires s.WellFormed() && now >= 0.0
    ensures var r := Demote(s.versions, s.active, b, now);
            if r.Ok? then s.(versions := r.value).VersionsOk() && DemotesOnly(s, b, now, r.value)
            else r.error == Transition
  {
    if b in s.active {
      RunningVersion(s, b);
      VersionAt(s, b, s.active[b]);
      var p := s.Version(b, s.active[b]).value;
      hide LifecycleState.WellFormed, LifecycleState.VersionsOk, VersionRecord.Ok;
      assert s.VersionsOk();
      RecordChangesOk(p, now);
      if NotEarlier(now, p.activatedAt) {
        PutOk(s, Demoted(p, now));
      }
    }
  }

  lemma SwitchKeepsActive(s: LifecycleState, b: string, demoted: Versions, target: VersionRecord, now: real)
    requires s.ActiveOk() && DemotesOnly(s, b, now, demoted)
    requires target.state.Activated? && target.bundleId == b && IsName(b) && IsDigest(target.digest)
    ensures s.(versions := SetVersion(demoted, target), active := s.active[b := target.digest]).ActiveOk()
    ensures Retains(s.versions, SetVersion(demoted, target))
  {
    hide IsName, IsDigest;
  }

  /** Making one version the running one, after its predecessor was demoted. */
  lemma SwitchOk(s: LifecycleState, b: string, demoted: Versions, target: VersionRecord, now: real)
    requires s.WellFormed() && s.(versions := demoted).VersionsOk() && DemotesOnly(s, b, now, demoted)
    requires target.Ok() && target.state.Activated? && target.bundleId == b
    ensures s.(versions := SetVersion(demoted, target), active := s.active[b := target.digest]).WellFormed()
  {
    assert IsName(b) && IsDigest(target.digest);
    hide VersionRecord.Ok, LifecycleState.VersionsOk, LifecycleState.ActiveOk, DemotesOnly;
    var t := s.(versions := SetVersion(demoted, target), active := s.active[b := target.digest]);
    PutOk(s.(versions := demoted), target);
    VersionsOnly(s.(versions := t.versions), t);
    SwitchKeepsActive(s, b, demoted, target, now);
    hide LifecycleState.WellFormed, Retains, SetVersion;
    Reassembled(s, t);
  }

  lemma VersionsOnly(s: LifecycleState, t: LifecycleState)
    requires s.VersionsOk() && s.versions == t.versions
    ensures t.VersionsOk()
  {
    hide VersionRecord.Ok;
  }

  lemma FirstVersionOk(record: DraftRecord, state: VersionState, now: real)
    requires record.Ok() && now >= 0.0 && (state.Approved? || state.Activated?)
    ensures NewVersion(record, state, now).Ok()
  {
    hide DraftRecord.EvidenceChained, DraftRecord.EvidenceComplete;
  }

  lemma AddedOk(s: LifecycleState, v: VersionRecord)
    requires s.WellFormed() && v.Ok() && v.state.Approved? && s.Version(v.bundleId, v.digest).None?
    ensures s.(versions := SetVersion(s.versions, v)).WellFormed()
  {
    PutOk(s, v);
    hide VersionRecord.Ok, DraftRecord.Ok, LifecycleState.GrantsOk, LifecycleState.VersionsOk;
    Reassembled(s, s.(versions := SetVersion(s.versions, v)));
  }

  lemma ApproveSound(s: LifecycleState, draftId: string, now: real, expected: Option<string>)
    requires s.WellFormed()
    ensures CandidateOk(s, CandidateApprove(s, draftId, now, expected))
  {
    hide LifecycleState.WellFormed, DraftRecord.Ok, VersionRecord.Ok, Advance, IsDraftId, SetVersion, Find;
    RecordOf(s, draftId);
    if CandidateApprove(s, draftId, now, expected).Ok? && s.drafts[draftId].state.AwaitingApproval? {
      var r := s.drafts[draftId];
      AdvanceOk(r, DraftState.Approved, now, None);
      AdvanceShape(r, DraftState.Approved, now, None);
      var a := Advance(r, DraftState.Approved, now, None);
      if s.Version(r.bundleId, r.digest).None? {
        var v := NewVersion(r, VersionState.Approved, now);
        FirstVersionOk(r, VersionState.Approved, now);
        AddedOk(s, v);
        var t := s.(versions := SetVersion(s.versions, v));
        assert t.Version(a.bundleId, a.digest).Some?;
        DraftApproved(t, a);
        assert SetDraft(t, draftId, a) == SetDraft(s, draftId, a).(versions := t.versions);
      } else {
        DraftApproved(s, a);
        assert SetDraft(s, draftId, a) == SetDraft(s, draftId, a).(versions := s.versions);
      }
    }
  }

  lemma PromotedOk(s: LifecycleState, b: string, d: string, now: real)
    requires s.WellFormed() && now >= 0.0 && s.Version(b, d).Some? && TimeAllows(s.Version(b, d).value, now)
    ensures var v := Promote(s.Version(b, d).value, now);
            v.Ok() && v.state.Activated? && v.bundleId == b && v.digest == d
  {
    VersionAt(s, b, d);
    RecordChangesOk(s.Version(b, d).value, now);
  }

  lemma ActivateSound(s: LifecycleState, b: string, d: string, now: real)
    requires s.WellFormed()
    ensures CandidateOk(s, CandidateActivate(s, b, d, now))
    ensures CandidateOk(s, CandidateRollback(s, b, d, now))
  {
    hide LifecycleState.WellFormed, VersionRecord.Ok, Promote, IsName, IsDigest;
    hide SetVersion, Find, Demote, DemotesOnly, LifecycleState.VersionsOk;
    if s.Version(b, d).Some? && now >= 0.0 && TimeAllows(s.Version(b, d).value, now) {
      PromotedOk(s, b, d, now);
      DemoteOk(s, b, now);
      var demoted := Demote(s.versions, s.active, b, now);
      if demoted.Ok? {
        SwitchOk(s, b, demoted.value, Promote(s.Version(b, d).value, now), now);
      }
    }
  }

  /** On every well-formed state rollback and activation build the same candidate or refuse alike. */
  lemma RollbackIsActivation(s: LifecycleState, b: string, d: string, now: real)
    requires s.WellFormed()
    ensures CandidateRollback(s, b, d, now) == CandidateActivate(s, b, d, now)
  {
    hide VersionRecord.Ok, DraftRecord.Ok, LifecycleState.GrantsOk, IsName, IsDigest;
  }

  lemma DeactivateSound(s: LifecycleState, b: string, now: real)
    requires s.WellFormed()
    ensures CandidateOk(s, CandidateDeactivate(s, b, now))
  {
    hide LifecycleState.WellFormed, VersionRecord.Ok, IsName, Find, Demote, DemotesOnly, LifecycleState.VersionsOk;
    if b in s.active && now >= 0.0 {
      DemoteOk(s, b, now);
      var demoted := Demote(s.versions, s.active, b, now);
      if demoted.Ok? {
        StoppedOk(s, b, demoted.value, now);
      }
    }
  }

  lemma StoppedOk(s: LifecycleState, b: string, demoted: Versions, now: real)
    requires s.WellFormed() && s.(versions := demoted).VersionsOk() && DemotesOnly(s, b, now, demoted)
    ensures s.(versions := demoted, active := s.active - {b}).WellFormed()
  {
    hide VersionRecord.Ok, DraftRecord.Ok, LifecycleState.GrantsOk, IsName, IsDigest;
    var t := s.(versions := demoted, active := s.active - {b});
    VersionsOnly(s.(versions := demoted), t);
    hide LifecycleState.VersionsOk;
    assert Retains(s.versions, t.versions);
    assert t.ActiveOk();
    Reassembled(s, t);
  }

  // Changing grants only: the state stays well formed when every grant is.
  lemma GrantsReplaced(s: LifecycleState, t: LifecycleState)
    requires s.WellFormed() && t == s.(grants := t.grants) && t.GrantsOk()
    ensures t.WellFormed()
  {
    hide VersionRecord.Ok, DraftRecord.Ok, LifecycleState.GrantsOk;
  }

  lemma PermissionSound(s: LifecycleState, k: PermissionKey, allow: bool, who: Option<string>, now: real)
    requires s.WellFormed()
    ensures CandidateOk(s, CandidatePermission(s, k, allow, who, now))
  {
    hide VersionRecord.Ok, DraftRecord.Ok, Grant.Ok, ParseKey;
    hide KeyText, ValidKey, LifecycleState.VersionsOk, LifecycleState.ActiveOk;
    KeyRoundTrip(KeyText(k), k);
    var c := CandidatePermission(s, k, allow, who, now);
    if c.Ok? {
      var t := c.value;
      assert t == s.(grants := t.grants);
      forall key | key in t.grants
        ensures t.grants[key].Ok() && ParseKey(key).Some?
        ensures t.GrantTarget(key).Some? && !t.GrantTarget(key).value.state.Archived?
      {
        if key in s.grants && s.grants[key] == t.grants[key] {
          assert t.GrantTarget(key) == s.GrantTarget(key);
        } else {
          assert key == KeyText(k);
          assert t.GrantTarget(key) == s.Version(k.bundleId, k.digest);
        }
      }
      GrantsReplaced(s, t);
    }
  }

  /** The prefix filter of archiving drops exactly the grants of the archived version. */
  lemma ArchiveDropsGrants(s: LifecycleState, b: string, d: string, key: string)
    requires s.GrantsOk() && IsName(b) && IsDigest(d) && key in s.grants
    ensures var k := ParseKey(key).value;
            key in WithoutPrefix(s.grants, VersionPrefix(b, d)) <==> !(k.bundleId == b && k.digest == d)
  {
    hide Grant.Ok, IsName, IsDigest;
    PrefixIsVersion(key, ParseKey(key).value, b, d);
  }

  lemma ArchiveSound(s: LifecycleState, b: string, d: string, now: real)
    requires s.WellFormed()
    ensures CandidateOk(s, CandidateArchive(s, b, d, now))
  {
    hide LifecycleState.WellFormed, VersionRecord.Ok, Retired, IsName, IsDigest, SetVersion, Find, WithoutPrefix;
    var c := CandidateArchive(s, b, d, now);
    if c.Ok? && !s.Version(b, d).value.state.Archived? {
      RetiredOk(s, b, d, now);
    }
  }

  lemma RetiredKeepsVersions(s: LifecycleState, b: string, d: string, now: real)
    requires s.WellFormed() && now >= 0.0 && s.Version(b, d).Some?
    requires s.Version(b, d).value.state.Deprecated? && TimeAllows(s.Version(b, d).value, now)
    ensures s.(versions := SetVersion(s.versions, Retired(s.Version(b, d).value, now))).VersionsOk()
    ensures var v := Retired(s.Version(b, d).value, now); v.bundleId == b && v.digest == d && v.state.Archived?
  {
    VersionAt(s, b, d);
    RecordChangesOk(s.Version(b, d).value, now);
    PutOk(s, Retired(s.Version(b, d).value, now));
  }

  lemma GrantsWithoutVersion(s: LifecycleState, t: LifecycleState, b: string, d: string)
    requires s.GrantsOk() && IsName(b) && IsDigest(d)
    requires t.grants == WithoutPrefix(s.grants, VersionPrefix(b, d))
    requires forall x, y :: (x != b || y != d) ==> Find(t.versions, x, y) == Find(s.versions, x, y)
    ensures t.GrantsOk()
  {
    hide IsName, IsDigest, ParseKey, VersionPrefix, Grant.Ok;
    forall key | key in t.grants
      ensures t.GrantTarget(key).Some? && !t.GrantTarget(key).value.state.Archived?
    {
      ArchiveDropsGrants(s, b, d, key);
      assert t.GrantTarget(key) == s.GrantTarget(key);
    }
  }

  lemma RetiredOk(s: LifecycleState, b: string, d: string, now: real)
    requires s.WellFormed() && now >= 0.0 && s.Version(b, d).Some? && IsName(b) && IsDigest(d)
    requires s.Version(b, d).value.state.Deprecated? && TimeAllows(s.Version(b, d).value, now)
    ensures s.(versions := SetVersion(s.versions, Retired(s.Version(b, d).value, now)),
               grants := WithoutPrefix(s.grants, VersionPrefix(b, d))).WellFormed()
  {
    hide VersionRecord.Ok, DraftRecord.Ok, IsName, IsDigest, LifecycleState.GrantsOk, LifecycleState.VersionsOk;
    hide WithoutPrefix, VersionPrefix, Retired;
    var v := Retired(s.Version(b, d).value, now);
    var t := s.(versions := SetVersion(s.versions, v), grants := WithoutPrefix(s.grants, VersionPrefix(b, d)));
    RetiredKeepsVersions(s, b, d, now);
    VersionsOnly(s.(versions := t.versions), t);
    GrantsWithoutVersion(s, t, b, d);
  }

  lemma TargetOk(s: LifecycleState, r: DraftRecord, now: real)
    requires s.WellFormed() && r.Ok() && now >= 0.0
    ensures var t := ActivatedTarget(r, s.Version(r.bundleId, r.digest), now);
            if t.Ok? then
              && t.value.Ok() && t.value.state.Activated?
              && t.value.bundleId == r.bundleId && t.value.digest == r.digest
            else t.error == Transition
  {
    hide DraftRecord.EvidenceChained, DraftRecord.EvidenceComplete;
    FirstVersionOk(r, VersionState.Activated, now);
    hide LifecycleState.WellFormed;
    if s.Version(r.bundleId, r.digest).Some? {
      VersionAt(s, r.bundleId, r.digest);
      RecordChangesOk(s.Version(r.bundleId, r.digest).value, now);
    }
  }

  lemma RunningTarget(s: LifecycleState, r: DraftRecord, now: real)
    requires s.WellFormed() && r.bundleId in s.active && s.active[r.bundleId] == r.digest
    ensures var v := s.Version(r.bundleId, r.digest);
            v.Some? && ActivatedTarget(r, v, now) == Ok(v.value)
            && SetVersion(s.versions, v.value) == s.versions && s.active[r.bundleId := r.digest] == s.active
  {
    RunningVersion(s, r.bundleId);
    VersionAt(s, r.bundleId, r.digest);
    hide VersionRecord.Ok, DraftRecord.Ok, LifecycleState.GrantsOk;
    var inner := s.versions[r.bundleId];
    assert inner[r.digest := inner[r.digest]] == inner;
    assert s.versions[r.bundleId := inner] == s.versions;
    assert s.active[r.bundleId := r.digest] == s.active;
  }

  lemma ActivateDraftSound(s: LifecycleState, draftId: string, now: real, expected: Option<string>)
    requires s.WellFormed()
    ensures CandidateOk(s, CandidateActivateDraft(s, draftId, now, expected))
  {
    hide LifecycleState.WellFormed, LifecycleState.VersionsOk, DraftRecord.Ok, VersionRecord.Ok;
    hide Advance, IsDraftId, SetVersion, Find, Demote, DemotesOnly, ActivatedTarget;
    RecordOf(s, draftId);
    if draftId in s.drafts && s.drafts[draftId].state.AwaitingApproval?
       && 0.0 <= now && s.drafts[draftId].updatedAt <= now {
      var r := s.drafts[draftId];
      var a := Advance(r, DraftState.Approved, now, None);
      AdvanceOk(r, DraftState.Approved, now, None);
      AdvanceShape(r, DraftState.Approved, now, None);
      TargetOk(s, r, now);
      var target := ActivatedTarget(r, s.Version(r.bundleId, r.digest), now);
      if r.bundleId in s.active && s.active[r.bundleId] == r.digest {
        RunningTarget(s, r, now);
        DraftApproved(s, a);
        assert SetDraft(s, draftId, a) == SetDraft(s, draftId, a).(versions := s.versions, active := s.active);
      } else {
        DemoteOk(s, r.bundleId, now);
        var demoted := Demote(s.versions, s.active, r.bundleId, now);
        if demoted.Ok? && target.Ok? {
          SwitchOk(s, r.bundleId, demoted.value, target.value, now);
          var t := s.(versions := SetVersion(demoted.value, target.value), active := s.active[r.bundleId := r.digest]);
          assert t.Version(a.bundleId, a.digest).Some?;
          DraftApproved(t, a);
          assert SetDraft(t, draftId, a) == SetDraft(s, draftId, a).(versions := t.versions, active := t.active);
        }
      }
    }
  }

  /* ---------- the planners together ---------- */

  lemma CandidateSound(s: LifecycleState, r: Request)
    requires s.WellFormed()
    ensures CandidateOk(s, Candidate(s, r))
  {
    hide LifecycleState.WellFormed, CandidateOk;
    match r {
      case RecordDraft(record) => RecordSound(s, record);
      case TransitionDraft(id, target, now, item) => TransitionSound(s, id, target, now, item);
      case RejectDraft(id, now, evidence) => RejectSound(s, id, now, evidence);
      case ApproveDraft(id, now, expected) => ApproveSound(s, id, now, expected);
      case ActivateVersion(b, d, now) => ActivateSound(s, b, d, now);
      case ActivateFromDraft(id, now, expected) => ActivateDraftSound(s, id, now, expected);
      case Deactivate(b, now) => DeactivateSound(s, b, now);
      case Rollback(b, d, now) => ActivateSound(s, b, d, now);
      case SetPermission(b, d, tool, allow, who, now) => PermissionSound(s, PermissionKey(b, d, tool), allow, who, now);
      case Archive(b, d, now) => ArchiveSound(s, b, d, now);
    }
  }

  /**
   Given a well-formed state, every planner refuses for a regular reason or returns a sound plan:
   no constructor check ever fires, and the revision rises by one exactly when the content changes.
   */
  lemma PlannersNeverBreak(s: LifecycleState, r: Request)
    requires s.WellFormed()
    ensures PlanFor(s, r).Ok? ==>
              && Sound(s, PlanFor(s, r).value)
              && PlanFor(s, r).value.after.SameContent(Candidate(s, r).value)
    ensures PlanFor(s, r).Err? ==> PlanFor(s, r).error != Broken
  {
    hide LifecycleState.WellFormed, Candidate, Sound, MakePlan;
    CandidateSound(s, r);
    if Candidate(s, r).Ok? {
      MakePlanSound(s, Operation(r), Candidate(s, r).value);
    }
  }

  /** Rolling back and activating agree on the resulting state, the digests and the refusal. */
  lemma RollbackPlansAsActivation(s: LifecycleState, b: string, d: string, now: real)
    requires s.WellFormed()
    ensures var activated, rolled := PlanFor(s, ActivateVersion(b, d, now)), PlanFor(s, Rollback(b, d, now));
            if activated.Ok? then rolled == Ok(activated.value.(operation := "rollback")) else rolled == activated
  {
    hide LifecycleState.WellFormed, CandidateActivate, CandidateRollback;
    RollbackIsActivation(s, b, d, now);
  }

  /* ---------- compensation ---------- */

  /** A restoring plan is sound, and it is only ever made for the exact state pair of the failed plan. */
  lemma RestoreSound(s: LifecycleState, snapshot: LifecycleState, failed: Plan)
    requires s.WellFormed() && snapshot.WellFormed() && failed.after.WellFormed() && failed.Ok()
    ensures var q := PlanRestore(s, snapshot, failed);
            if q.Ok? then
              && s == failed.after && StateDigest(snapshot) == failed.beforeDigest
              && Sound(s, q.value) && q.value.after.SameContent(snapshot)
            else q.error != Broken
  {
    hide LifecycleState.DraftsOk, LifecycleState.VersionsOk, LifecycleState.ActiveOk;
    hide LifecycleState.GrantsOk, LifecycleState.ApprovedBacked, Sound;
    DigestSeparates(s, failed.after);
    if PlanRestore(s, snapshot, failed).Ok? {
      RevisionIrrelevant(snapshot, s.revision);
      MakePlanSound(s, "restore_snapshot", snapshot.(revision := s.revision));
    } else {
      if !failed.noOp && s.revision == failed.after.revision && StateDigest(s) == failed.afterDigest
        && snapshot.revision == failed.expectedRevision {
        RevisionIrrelevant(snapshot, s.revision);
        MakePlanSound(s, "restore_snapshot", snapshot.(revision := s.revision));
      }
    }
  }

  /** Committing a changing plan and then its compensation gives back the content, two revisions on. */
  lemma CompensationRestores(s: LifecycleState, r: Request)
    requires s.WellFormed() && PlanFor(s, r).Ok? && !PlanFor(s, r).value.noOp
    ensures var p := PlanFor(s, r).value;
            var q := PlanRestore(p.after, s, p);
            q.Ok? && !q.value.noOp && q.value.after == s.(revision := s.revision + 2)
  {
    hide LifecycleState.WellFormed, Candidate, MakePlan;
    PlannersNeverBreak(s, r);
    var p := PlanFor(s, r).value;
    RestoreSound(p.after, s, p);
    RestoreAccepted(s, p);
  }

  lemma RestoreAccepted(s: LifecycleState, p: Plan)
    requires s.WellFormed() && Sound(s, p) && !p.noOp
    ensures PlanRestore(p.after, s, p).Ok?
  {
    hide LifecycleState.DraftsOk, LifecycleState.VersionsOk, LifecycleState.ActiveOk;
    hide LifecycleState.GrantsOk, LifecycleState.ApprovedBacked;
    RevisionIrrelevant(s, p.after.revision);
    MakePlanSound(p.after, "restore_snapshot", s.(revision := p.after.revision));
  }

  /** After any other state was persisted, the compensation is refused as a conflict. */
  lemma CompensationConflicts(s: LifecycleState, r: Request, current: LifecycleState)
    requires s.WellFormed() && current.WellFormed() && PlanFor(s, r).Ok? && !PlanFor(s, r).value.noOp
    requires current != PlanFor(s, r).value.after
    ensures PlanRestore(current, s, PlanFor(s, r).value) == Err(Conflict)
  {
    hide LifecycleState.WellFormed, Candidate, MakePlan;
    PlannersNeverBreak(s, r);
    DigestSeparates(current, PlanFor(s, r).value.after);
  }
}
