/**
 The persisted generated-tool lifecycle: draft records with their evidence chains, immutable
 versions, the active version of each bundle and permission grants. A record is well formed
 exactly when its constructor accepts it. Times are non-negative reals.
 */
module Lifecycle {
  import opened Wrappers
  import opened Text

  datatype DraftState =
    | Draft | StaticValidated | SandboxTested | ModelReviewed | AwaitingApproval
    | Approved | Rejected | ReviewFailed | ValidationFailed | TestFailed

  datatype VersionState = Approved | Activated | Deprecated | Archived

  const SUCCESS_STATES: set<DraftState> :=
    {DraftState.StaticValidated, DraftState.SandboxTested, DraftState.ModelReviewed}

  predicate TakesEvidence(state: DraftState) {
    !state.Draft? && !state.AwaitingApproval? && !state.Approved?
  }

  const EVIDENCE_STATES := set s: DraftState | TakesEvidence(s)

  function ExpectedOutcome(state: DraftState): string {
    match state
    case StaticValidated | SandboxTested | ModelReviewed => "passed"
    case Rejected => "rejected"
    case _ => "failed"
  }

  datatype Evidence = Evidence(
    state: DraftState, draftDigest: string, producer: string, outcome: string,
    summary: string, recordedAt: real, risks: seq<string>)
  {
    predicate Ok() {
      && TakesEvidence(state)
      && IsDigest(draftDigest)
      && IsTrimmed(producer, 160)
      && outcome == ExpectedOutcome(state)
      && IsTrimmed(summary, 4000)
      && recordedAt >= 0.0
      && |risks| <= 64
      && forall i :: 0 <= i < |risks| ==> IsTrimmed(risks[i], 500)
    }
  }

  function EvidenceStates(evidence: seq<Evidence>): set<DraftState> {
    set i | 0 <= i < |evidence| :: evidence[i].state
  }

  /** Evidence a draft in this state must carry. */
  function Required(state: DraftState): set<DraftState> {
    match state
    case StaticValidated => {DraftState.StaticValidated}
    case SandboxTested => {DraftState.StaticValidated, DraftState.SandboxTested}
    case ModelReviewed | AwaitingApproval | Approved => SUCCESS_STATES
    case ValidationFailed => {DraftState.ValidationFailed}
    case TestFailed => {DraftState.StaticValidated, DraftState.TestFailed}
    case ReviewFailed => {DraftState.StaticValidated, DraftState.SandboxTested, DraftState.ReviewFailed}
    case Rejected => {DraftState.Rejected}
    case Draft => {}
  }

  /** Evidence a draft in this state may carry. */
  function Allowed(state: DraftState): set<DraftState> {
    match state
    case ReviewFailed => Required(state) + {DraftState.ModelReviewed}
    case Rejected => EVIDENCE_STATES
    case _ => Required(state)
  }

  function ExpectedLast(state: DraftState): DraftState {
    if state.AwaitingApproval? || state.Approved? then DraftState.ModelReviewed else state
  }

  datatype DraftRecord = DraftRecord(
    draftId: string, bundleId: string, digest: string, state: DraftState,
    createdAt: real, updatedAt: real, evidence: seq<Evidence>)
  {
    predicate HeaderOk() {
      IsDraftId(draftId) && IsName(bundleId) && IsDigest(digest) && 0.0 <= createdAt <= updatedAt
    }

    // Every item is bound to the digest, lies in the draft's life span, and
    // states are distinct and recorded in order.
    predicate EvidenceChained() {
      && (forall i :: 0 <= i < |evidence| ==>
            && evidence[i].Ok()
            && evidence[i].draftDigest == digest
            && createdAt <= evidence[i].recordedAt <= updatedAt)
      && (forall i, j :: 0 <= i < j < |evidence| ==>
            evidence[i].state != evidence[j].state && evidence[i].recordedAt <= evidence[j].recordedAt)
    }

    predicate EvidenceComplete() {
      && Required(state) <= EvidenceStates(evidence) <= Allowed(state)
      && (evidence != [] ==> evidence[|evidence| - 1].state == ExpectedLast(state))
    }

    predicate Ok() {
      HeaderOk() && EvidenceChained() && EvidenceComplete()
    }
  }

  type OptTime = Option<real>

  // A later optional time is absent or not before t.
  predicate NotBefore(o: OptTime, t: real) {
    o.Some? ==> t <= o.value
  }

  datatype VersionRecord = VersionRecord(
    bundleId: string, digest: string, state: VersionState, sourceDraftId: Option<string>,
    createdAt: real, approvedAt: real, activatedAt: OptTime, deprecatedAt: OptTime, archivedAt: OptTime)
  {
    predicate TimesOk() {
      && 0.0 <= createdAt <= approvedAt
      && NotBefore(activatedAt, approvedAt)
      && (deprecatedAt.Some? ==> activatedAt.Some? && activatedAt.value <= deprecatedAt.value)
      && (archivedAt.Some? ==>
            && approvedAt <= archivedAt.value
            && (activatedAt.Some? ==> activatedAt.value <= archivedAt.value)
            && (deprecatedAt.Some? ==> deprecatedAt.value <= archivedAt.value))
    }

    predicate TimesMatchState() {
      match state
      case Approved => activatedAt.None? && deprecatedAt.None? && archivedAt.None?
      case Activated => activatedAt.Some? && deprecatedAt.None? && archivedAt.None?
      case Deprecated => activatedAt.Some? && deprecatedAt.Some? && archivedAt.None?
      case Archived => activatedAt.Some? && deprecatedAt.Some? && archivedAt.Some?
    }

    predicate Ok() {
      && IsName(bundleId) && IsDigest(digest)
      && (sourceDraftId.Some? ==> IsDraftId(sourceDraftId.value))
      && TimesOk() && TimesMatchState()
    }
  }

  datatype Grant = Grant(approvedBy: string, approvedAt: real) {
    predicate Ok() {
      IsTrimmed(approvedBy, 160) && approvedAt >= 0.0
    }
  }

  type Versions = map<string, map<string, VersionRecord>>

  /** `versions.get(bundle_id, {}).get(digest)` */
  function Find(versions: Versions, bundleId: string, digest: string): Option<VersionRecord> {
    if bundleId in versions && digest in versions[bundleId] then Some(versions[bundleId][digest]) else None
  }

  /** The copied map with one version set, its bundle entry created when missing. */
  function SetVersion(versions: Versions, v: VersionRecord): (r: Versions)
    ensures forall b, d :: Find(r, b, d) ==
                           if b == v.bundleId && d == v.digest then Some(v) else Find(versions, b, d)
    ensures r.Keys == versions.Keys + {v.bundleId}
  {
    var inner := if v.bundleId in versions then versions[v.bundleId] else map[];
    versions[v.bundleId := inner[v.digest := v]]
  }

  datatype LifecycleState = LifecycleState(
    revision: int,
    drafts: map<string, DraftRecord>,
    versions: Versions,
    active: map<string, string>,
    grants: map<string, Grant>)
  {
    function Version(bundleId: string, digest: string): Option<VersionRecord> {
      Find(versions, bundleId, digest)
    }

    predicate DraftsOk() {
      forall id :: id in drafts ==> drafts[id].Ok() && drafts[id].draftId == id
    }

    predicate VersionsOk() {
      && (forall b :: b in versions ==> IsName(b))
      && (forall b, d {:trigger Find(versions, b, d)} :: b in versions && d in versions[b] ==>
            var v := Find(versions, b, d).value;
            v.Ok() && v.bundleId == b && v.digest == d)
    }

    // `active` names exactly the activated versions: at most one in a bundle.
    predicate ActiveOk() {
      && (forall b :: b in active ==>
            && IsName(b) && IsDigest(active[b])
            && Find(versions, b, active[b]).Some? && Find(versions, b, active[b]).value.state.Activated?)
      && (forall b, d {:trigger Find(versions, b, d)} ::
            b in versions && d in versions[b] && Find(versions, b, d).value.state.Activated? ==>
              b in active && active[b] == d)
    }

    predicate GrantsOk() {
      forall key :: key in grants ==>
        && grants[key].Ok()
        && ParseKey(key).Some?
        && GrantTarget(key).Some? && !GrantTarget(key).value.state.Archived?
    }

    function GrantTarget(key: string): Option<VersionRecord>
      requires ParseKey(key).Some?
    {
      var k := ParseKey(key).value;
      Find(versions, k.bundleId, k.digest)
    }

    predicate ApprovedBacked() {
      forall id :: id in drafts && drafts[id].state.Approved? ==>
        Find(versions, drafts[id].bundleId, drafts[id].digest).Some?
    }

    predicate WellFormed() {
      revision >= 0 && DraftsOk() && VersionsOk() && ActiveOk() && GrantsOk() && ApprovedBacked()
    }

    predicate SameContent(other: LifecycleState) {
      drafts == other.drafts && versions == other.versions && active == other.active && grants == other.grants
    }
  }

  const EMPTY := LifecycleState(0, map[], map[], map[], map[])
}
