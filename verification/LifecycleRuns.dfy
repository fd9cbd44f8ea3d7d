/**
 Runs of any number of processes that read the persisted state, make plans from anything they have
 read, compensate plans they hold and commit by compare-and-swap. Commits are atomic: the code holds
 the exclusive file lock from the read of the current state to the write of the new one.
 */
module LifecycleRuns {
  import opened Wrappers
  import opened Text
  import opened Lifecycle
  import opened LifecycleCodec
  import opened LifecyclePlans
  import opened LifecyclePlanSafety
  import opened LifecycleEvolution

  datatype Step =
    | Read
    | Make(base: LifecycleState, request: Request)
    | Compensate(base: LifecycleState, snapshot: LifecycleState, failed: Plan)
    | Commit(plan: Plan)

  /** The persisted states in order, every state some process has read, and every plan ever made. */
  datatype System = System(history: seq<LifecycleState>, seen: set<LifecycleState>, plans: set<Plan>) {
    // A missing state file reads as the empty state.
    function Current(): LifecycleState {
      if history == [] then EMPTY else history[|history| - 1]
    }

    // The compare-and-swap precondition.
    predicate Matches(p: Plan) {
      Current().revision == p.expectedRevision && StateDigest(Current()) == p.beforeDigest
    }

    predicate Changes(p: Plan) {
      history != [] && Matches(p) && !p.noOp
    }
  }

  function Planned1(y: System, made: Planned<Plan>): System {
    if made.Ok? then y.(plans := y.plans + {made.value}) else y
  }

  /** One step; None when the step is not enabled. A conflicting or no-op commit changes nothing. */
  function Next(y: System, step: Step): Option<System> {
    if y.history == [] then None
    else
      match step
      case Read => Some(y.(seen := y.seen + {y.Current()}))
      case Make(base, request) => if base in y.seen then Some(Planned1(y, PlanFor(base, request))) else None
      case Compensate(base, snapshot, failed) =>
        if base in y.seen && snapshot in y.seen && failed in y.plans then
          Some(Planned1(y, PlanRestore(base, snapshot, failed)))
        else None
      case Commit(plan) =>
        if plan !in y.plans then None
        else if y.Changes(plan) then Some(y.(history := y.history + [plan.after]))
        else Some(y)
  }

  function Start(s: LifecycleState): System {
    System([s], {}, {})
  }

  predicate Run(trace: seq<System>, steps: seq<Step>) {
    && |trace| == |steps| + 1
    && trace[0].history != []
    && trace[0] == Start(trace[0].history[0])
    && trace[0].history[0].WellFormed()
    && forall i :: 0 <= i < |steps| ==> Next(trace[i], steps[i]) == Some(trace[i + 1])
  }

  /* ---------- one chain of states ---------- */

  ghost predicate MadeFrom(y: System, p: Plan) {
    exists base :: base in y.history && Sound(base, p)
  }

  ghost predicate Linked(y: System, k: nat)
    requires 1 <= k < |y.history|
  {
    exists p :: p in y.plans && !p.noOp && Sound(y.history[k - 1], p) && p.after == y.history[k]
  }

  ghost predicate Chain(y: System) {
    && y.history != []
    && (forall i :: 0 <= i < |y.history| ==>
          y.history[i].WellFormed() && y.history[i].revision == y.history[0].revision + i)
    && (forall s :: s in y.seen ==> s in y.history)
    && (forall p :: p in y.plans ==> MadeFrom(y, p))
    && (forall k :: 1 <= k < |y.history| ==> Linked(y, k))
  }

  // A matching plan was made from the current state itself.
  lemma MatchingBase(y: System, p: Plan)
    requires Chain(y) && MadeFrom(y, p) && y.Matches(p)
    ensures Sound(y.Current(), p)
  {
    hide LifecycleState.WellFormed, Sound;
    var base :| base in y.history && Sound(base, p);
    assert StateDigest(base) == p.beforeDigest by { SoundParts(base, p); }
    DigestSeparates(base, y.Current());
  }

  lemma SoundParts(s: LifecycleState, p: Plan)
    requires Sound(s, p)
    ensures p.Ok() && p.after.WellFormed() && p.expectedRevision == s.revision && p.beforeDigest == StateDigest(s)
    ensures p.after.revision == (if p.noOp then s.revision else s.revision + 1)
  {
    hide LifecycleState.WellFormed;
  }

  lemma MadePlanSound(y: System, made: Planned<Plan>, base: LifecycleState)
    requires Chain(y) && base in y.history && (made.Ok? ==> Sound(base, made.value))
    ensures Chain(Planned1(y, made))
  {
    hide LifecycleState.WellFormed, Sound;
    var z := Planned1(y, made);
    if made.Ok? {
      forall p | p in z.plans ensures MadeFrom(z, p) {
        if p in y.plans {
          assert MadeFrom(y, p);
        }
      }
      forall k | 1 <= k < |z.history| ensures Linked(z, k) {
        assert Linked(y, k);
      }
    }
  }

  lemma HistoryMember(y: System, s: LifecycleState)
    requires Chain(y) && s in y.history
    ensures s.WellFormed()
  {
    hide LifecycleState.WellFormed;
  }

  lemma ChainStep(y: System, step: Step)
    requires Chain(y) && Next(y, step).Some?
    ensures Chain(Next(y, step).value)
  {
    hide LifecycleState.WellFormed, Sound, PlanFor, PlanRestore;
    match step {
      case Read =>
        var z := Next(y, step).value;
        assert y.Current() in y.history;
        forall p | p in z.plans ensures MadeFrom(z, p) { assert MadeFrom(y, p); }
        forall k | 1 <= k < |z.history| ensures Linked(z, k) { assert Linked(y, k); }
      case Make(base, request) =>
        HistoryMember(y, base);
        PlannersNeverBreak(base, request);
        MadePlanSound(y, PlanFor(base, request), base);
      case Compensate(base, snapshot, failed) =>
        RestoredPlanSound(y, base, snapshot, failed);
        MadePlanSound(y, PlanRestore(base, snapshot, failed), base);
      case Commit(plan) =>
        if y.Changes(plan) {
          ChainGrows(y, plan);
        }
    }
  }

  lemma RestoredPlanSound(y: System, base: LifecycleState, snapshot: LifecycleState, failed: Plan)
    requires Chain(y) && base in y.seen && snapshot in y.seen && failed in y.plans
    ensures var q := PlanRestore(base, snapshot, failed);
            q.Ok? ==> Sound(base, q.value) && q.value.after.SameContent(snapshot)
  {
    hide LifecycleState.WellFormed, Sound, PlanRestore;
    HistoryMember(y, base);
    HistoryMember(y, snapshot);
    assert MadeFrom(y, failed);
    var origin :| origin in y.history && Sound(origin, failed);
    SoundParts(origin, failed);
    RestoreSound(base, snapshot, failed);
  }

  lemma ChainGrows(y: System, p: Plan)
    requires Chain(y) && p in y.plans && y.Changes(p)
    ensures Chain(y.(history := y.history + [p.after]))
  {
    hide LifecycleState.WellFormed, Sound;
    var z := y.(history := y.history + [p.after]);
    MatchingBase(y, p);
    SoundParts(y.Current(), p);
    forall q | q in z.plans ensures MadeFrom(z, q) {
      assert MadeFrom(y, q);
      var base :| base in y.history && Sound(base, q);
      assert base in z.history;
    }
    forall k | 1 <= k < |z.history| ensures Linked(z, k) {
      if k < |y.history| {
        assert Linked(y, k);
      }
    }
  }

  /** In every run, from any well-formed start, the persisted states form one chain of revisions. */
  lemma {:induction false} RunsChain(trace: seq<System>, steps: seq<Step>, i: nat)
    requires Run(trace, steps) && i < |trace|
    ensures Chain(trace[i])
  {
    hide LifecycleState.WellFormed, Sound, Next;
    if i > 0 {
      RunsChain(trace, steps, i - 1);
      ChainStep(trace[i - 1], steps[i - 1]);
    }
  }

  lemma StepKeeps(y: System, step: Step)
    requires Next(y, step).Some?
    ensures y.history <= Next(y, step).value.history
    ensures y.plans <= Next(y, step).value.plans
  {
    hide PlanFor, PlanRestore;
  }

  lemma {:induction false} HistoryGrows(trace: seq<System>, steps: seq<Step>, i: nat, j: nat)
    requires Run(trace, steps) && i <= j < |trace|
    ensures trace[i].history <= trace[j].history
    decreases j - i
  {
    hide LifecycleState.WellFormed, Next;
    if i < j {
      HistoryGrows(trace, steps, i, j - 1);
      StepKeeps(trace[j - 1], steps[j - 1]);
    }
  }

  // Step i of the run persisted the after state of this plan.
  predicate Persists(trace: seq<System>, steps: seq<Step>, i: nat, p: Plan) {
    i < |steps| && i < |trace| && steps[i] == Commit(p) && p in trace[i].plans && trace[i].Changes(p)
  }

  lemma LaterIsLonger(trace: seq<System>, steps: seq<Step>, i: nat, j: nat, p: Plan)
    requires Run(trace, steps) && Persists(trace, steps, i, p) && j < |trace|
    ensures i < j ==> |trace[i].history| < |trace[j].history| && trace[j].history[0] == trace[i].history[0]
  {
    hide LifecycleState.WellFormed, System.Matches;
    if i < j {
      HistoryGrows(trace, steps, i + 1, j);
      assert Next(trace[i], steps[i]) == Some(trace[i + 1]);
    }
  }

  /** Of several changing plans made from one state at most one is ever persisted, and only once. */
  lemma AtMostOneCommit(trace: seq<System>, steps: seq<Step>, i: nat, j: nat, p: Plan, q: Plan)
    requires Run(trace, steps)
    requires Persists(trace, steps, i, p) && Persists(trace, steps, j, q)
    requires p.beforeDigest == q.beforeDigest
    ensures i == j && p == q
  {
    hide LifecycleState.WellFormed;
    RunsChain(trace, steps, i);
    RunsChain(trace, steps, j);
    DigestSeparates(trace[i].Current(), trace[j].Current());
    LaterIsLonger(trace, steps, i, j, p);
    LaterIsLonger(trace, steps, j, i, q);
  }

  /* ---------- review stamps ---------- */

  /** The SHA-256 review stamp, idealised as an injective constructor. */
  datatype Stamp = Stamp(draftId: string, digest: string, revision: int, stateDigest: Digest, active: Option<string>)

  function StampFor(s: LifecycleState, draftId: string): Stamp
    requires draftId in s.drafts
  {
    var r := s.drafts[draftId];
    Stamp(draftId, r.digest, s.revision, StateDigest(s),
          if r.bundleId in s.active then Some(s.active[r.bundleId]) else None)
  }

  /** `prepare_approval`, the short hash already lower-cased and the draft's files already checked. */
  function PrepareApproval(
    s: LifecycleState, draftId: string, shortHash: string, stamp: Stamp, now: real): Planned<Plan>
  {
    var record :- FindDraft(s, draftId);
    :- Need(record.state.AwaitingApproval?, Transition);
    :- Need(8 <= |shortHash| && shortHash <= record.digest, Malformed);
    :- Need(stamp == StampFor(s, draftId), Conflict);
    PlanFor(s, ActivateFromDraft(draftId, now, Some(record.digest)))
  }

  /** A stamp is valid in exactly one lifecycle state. */
  lemma StampBindsState(s: LifecycleState, t: LifecycleState, draftId: string)
    requires s.WellFormed() && t.WellFormed() && draftId in s.drafts && draftId in t.drafts
    ensures StampFor(s, draftId) == StampFor(t, draftId) <==> s == t
  {
    hide LifecycleState.WellFormed;
    DigestSeparates(s, t);
  }

  /**
   An approval is persisted only if nothing at all was persisted since its stamp was shown: the stamp
   is shown at time i, the plan prepared at time j and committed at time k.
   */
  lemma ApprovalMeansUnchanged(
    trace: seq<System>, steps: seq<Step>, i: nat, j: nat, k: nat,
    draftId: string, shortHash: string, now: real, p: Plan)
    requires Run(trace, steps) && i <= j <= k && Persists(trace, steps, k, p)
    requires draftId in trace[i].Current().drafts
    requires Ok(p) ==
             PrepareApproval(trace[j].Current(), draftId, shortHash, StampFor(trace[i].Current(), draftId), now)
    ensures trace[k].history == trace[i].history
  {
    hide LifecycleState.WellFormed, Sound, Candidate;
    RunsChain(trace, steps, i);
    RunsChain(trace, steps, j);
    RunsChain(trace, steps, k);
    HistoryGrows(trace, steps, i, k);
    StampBindsState(trace[i].Current(), trace[j].Current(), draftId);
    var current := trace[j].Current();
    PlannersNeverBreak(current, ActivateFromDraft(draftId, now, Some(current.drafts[draftId].digest)));
    SoundParts(trace[j].Current(), p);
    DigestSeparates(trace[j].Current(), trace[k].Current());
    assert trace[k].history[0] == trace[i].history[0];
  }

  /* ---------- provenance ---------- */

  /** Every version comes from an approved draft with the same bundle and digest. */
  ghost predicate Provenance(s: LifecycleState) {
    forall b, d :: Find(s.versions, b, d).Some? ==> Backs(s, Find(s.versions, b, d).value)
  }

  lemma ProvenanceKept(s: LifecycleState, t: LifecycleState)
    requires Provenance(s) && Evolves(s, t)
    ensures Provenance(t)
  {
    forall b, d | Find(t.versions, b, d).Some? ensures Backs(t, Find(t.versions, b, d).value) {
      if Find(s.versions, b, d).Some? {
        var v := Find(s.versions, b, d).value;
        assert Backs(s, v);
        assert DraftMoved(s.drafts[v.sourceDraftId.value], t.drafts[v.sourceDraftId.value]);
        assert VersionMoved(v, Find(t.versions, b, d).value);
      }
    }
  }

  lemma ProvenanceOfContent(s: LifecycleState, t: LifecycleState)
    requires Provenance(s) && s.SameContent(t)
    ensures Provenance(t)
  {
    forall b, d | Find(t.versions, b, d).Some? ensures Backs(t, Find(t.versions, b, d).value) {
      assert Backs(s, Find(s.versions, b, d).value);
    }
  }

  ghost predicate Traced(y: System) {
    && (forall i :: 0 <= i < |y.history| ==> Provenance(y.history[i]))
    && (forall p :: p in y.plans ==> Provenance(p.after))
  }

  lemma TracedStep(y: System, step: Step)
    requires Chain(y) && Traced(y) && Next(y, step).Some?
    ensures Traced(Next(y, step).value)
  {
    hide LifecycleState.WellFormed, Sound, PlanFor, PlanRestore, Provenance, Backs, Candidate;
    match step {
      case Make(base, request) =>
        assert base in y.history;
        HistoryMember(y, base);
        if PlanFor(base, request).Ok? {
          MadeKeepsProvenance(base, request);
        }
      case Compensate(base, snapshot, failed) =>
        assert snapshot in y.history;
        RestoredPlanSound(y, base, snapshot, failed);
        if PlanRestore(base, snapshot, failed).Ok? {
          ProvenanceOfContent(snapshot, PlanRestore(base, snapshot, failed).value.after);
        }
      case _ =>
    }
  }

  lemma MadeKeepsProvenance(base: LifecycleState, request: Request)
    requires base.WellFormed() && Provenance(base) && PlanFor(base, request).Ok?
    ensures Provenance(PlanFor(base, request).value.after)
  {
    hide LifecycleState.WellFormed, Sound, Provenance, Candidate, Evolves, MakePlan;
    PlannersNeverBreak(base, request);
    PlansEvolve(base, request);
    ProvenanceKept(base, Candidate(base, request).value);
    ProvenanceOfContent(Candidate(base, request).value, PlanFor(base, request).value.after);
  }

  lemma {:induction false} RunsTraced(trace: seq<System>, steps: seq<Step>, i: nat)
    requires Run(trace, steps) && trace[0] == Start(EMPTY) && i < |trace|
    ensures Traced(trace[i])
  {
    hide LifecycleState.WellFormed, Sound, Next;
    if i > 0 {
      RunsTraced(trace, steps, i - 1);
      RunsChain(trace, steps, i - 1);
      TracedStep(trace[i - 1], steps[i - 1]);
    }
  }

  // The draft passed static validation, sandbox tests and model review, all for this digest.
  predicate PassedEveryCheck(r: DraftRecord) {
    && EvidenceStates(r.evidence) == SUCCESS_STATES
    && forall i :: 0 <= i < |r.evidence| ==> r.evidence[i].outcome == "passed" && r.evidence[i].draftDigest == r.digest
  }

  lemma ApprovedPassed(r: DraftRecord)
    requires r.Ok() && r.state.Approved?
    ensures PassedEveryCheck(r)
  {
    assert Required(r.state) == Allowed(r.state) == SUCCESS_STATES;
    forall i | 0 <= i < |r.evidence| ensures r.evidence[i].outcome == "passed" {
      assert r.evidence[i].state in EvidenceStates(r.evidence);
    }
  }

  /**
   Over all runs from the empty state, compensation included, no version, and so no active version,
   exists without an approved draft of the same bundle and digest that passed all three checks.
   */
  lemma NoUncheckedVersion(trace: seq<System>, steps: seq<Step>, i: nat, k: nat, b: string, d: string)
    requires Run(trace, steps) && trace[0] == Start(EMPTY)
    requires i < |trace| && k < |trace[i].history| && trace[i].history[k].Version(b, d).Some?
    ensures var s := trace[i].history[k];
            var v := s.Version(b, d).value;
            Backs(s, v) && v.bundleId == b && v.digest == d && PassedEveryCheck(s.drafts[v.sourceDraftId.value])
  {
    hide LifecycleState.WellFormed, DraftRecord.Ok;
    var s := trace[i].history[k];
    RunsTraced(trace, steps, i);
    RunsChain(trace, steps, i);
    assert Provenance(s);
    VersionOf(s, b, d);
    var v := s.Version(b, d).value;
    RecordOf(s, v.sourceDraftId.value);
    ApprovedPassed(s.drafts[v.sourceDraftId.value]);
  }

  lemma VersionOf(s: LifecycleState, b: string, d: string)
    requires s.WellFormed() && s.Version(b, d).Some?
    ensures var v := s.Version(b, d).value; v.bundleId == b && v.digest == d
  {
    VersionAt(s, b, d);
  }

  /* ---------- absorbing states ---------- */

  predicate WithoutCompensation(steps: seq<Step>) {
    forall i :: 0 <= i < |steps| ==> !steps[i].Compensate?
  }

  /** Decided drafts and archived versions of s are unchanged in t. */
  ghost predicate Settled(s: LifecycleState, t: LifecycleState) {
    && (forall id :: id in s.drafts && (s.drafts[id].state.Approved? || s.drafts[id].state.Rejected?) ==>
          id in t.drafts && t.drafts[id] == s.drafts[id])
    && (forall b, d :: Find(s.versions, b, d).Some? && Find(s.versions, b, d).value.state.Archived? ==>
          Find(t.versions, b, d) == Find(s.versions, b, d))
  }

  lemma EvolutionSettles(s: LifecycleState, t: LifecycleState, u: LifecycleState)
    requires Evolves(s, t) && t.SameContent(u)
    ensures Settled(s, u)
  {
  }

  // Every plan was made by a planner, from a state some process had read.
  ghost predicate Planners(y: System) {
    forall p :: p in y.plans ==> exists base, r :: base in y.history && PlanFor(base, r) == Ok(p)
  }

  lemma {:induction false} RunsPlanners(trace: seq<System>, steps: seq<Step>, i: nat)
    requires Run(trace, steps) && WithoutCompensation(steps) && i < |trace|
    ensures Planners(trace[i])
  {
    hide LifecycleState.WellFormed, Sound, PlanFor;
    if i > 0 {
      RunsPlanners(trace, steps, i - 1);
      RunsChain(trace, steps, i - 1);
      var y, z := trace[i - 1], trace[i];
      assert Next(y, steps[i - 1]) == Some(z);
      StepKeeps(y, steps[i - 1]);
      forall p | p in z.plans ensures exists base, r :: base in z.history && PlanFor(base, r) == Ok(p) {
        if p in y.plans {
          var base, r :| base in y.history && PlanFor(base, r) == Ok(p);
          assert base in z.history;
        } else {
          assert steps[i - 1].Make? && PlanFor(steps[i - 1].base, steps[i - 1].request) == Ok(p);
        }
      }
    }
  }

  lemma CommitSettles(y: System, p: Plan)
    requires Chain(y) && Planners(y) && p in y.plans && y.Changes(p)
    ensures Settled(y.Current(), p.after)
  {
    hide LifecycleState.WellFormed, Sound, PlanFor, Settled, Evolves;
    var base, r :| base in y.history && PlanFor(base, r) == Ok(p);
    HistoryMember(y, base);
    PlannersNeverBreak(base, r);
    SoundParts(base, p);
    DigestSeparates(base, y.Current());
    assert Candidate(base, r).Ok? by { PlanHasCandidate(base, r); }
    PlansEvolve(base, r);
    EvolutionSettles(base, Candidate(base, r).value, p.after);
  }

  lemma PlanHasCandidate(base: LifecycleState, r: Request)
    requires PlanFor(base, r).Ok?
    ensures Candidate(base, r).Ok?
  {
    hide Candidate, MakePlan;
  }

  lemma StepSettles(y: System, step: Step)
    requires Chain(y) && Planners(y) && Next(y, step).Some?
    ensures Next(y, step).value.history != [] && Settled(y.Current(), Next(y, step).value.Current())
  {
    hide LifecycleState.WellFormed, Sound, PlanFor, PlanRestore;
    if step.Commit? && y.Changes(step.plan) {
      CommitSettles(y, step.plan);
    }
  }

  /** Without compensation, approved and rejected drafts and archived versions never change again. */
  lemma {:induction false} DecisionsAreFinal(trace: seq<System>, steps: seq<Step>, i: nat, j: nat)
    requires Run(trace, steps) && WithoutCompensation(steps) && i <= j < |trace|
    ensures trace[i].history != [] && trace[j].history != [] && Settled(trace[i].Current(), trace[j].Current())
    decreases j - i
  {
    hide LifecycleState.WellFormed, Sound, Next;
    RunsChain(trace, steps, j);
    if i < j {
      DecisionsAreFinal(trace, steps, i, j - 1);
      RunsChain(trace, steps, j - 1);
      RunsPlanners(trace, steps, j - 1);
      StepSettles(trace[j - 1], steps[j - 1]);
    }
  }

  /* ---------- what the records in a run look like ---------- */

  // It says who made it, is about this very content, lies in the draft's life span and has its state's outcome.
  predicate Trustworthy(e: Evidence, r: DraftRecord) {
    && e.state !in {DraftState.Draft, DraftState.AwaitingApproval, DraftState.Approved}
    && e.draftDigest == r.digest && IsDigest(r.digest)
    && IsTrimmed(e.producer, 160) && IsTrimmed(e.summary, 4000)
    && |e.risks| <= 64 && (forall k :: 0 <= k < |e.risks| ==> IsTrimmed(e.risks[k], 500))
    && 0.0 <= r.createdAt <= e.recordedAt <= r.updatedAt
    && e.outcome == (if e.state.StaticValidated? || e.state.SandboxTested? || e.state.ModelReviewed? then "passed"
                     else if e.state.Rejected? then "rejected" else "failed")
  }

  // The last check is the one the draft's state is about.
  predicate EndsWithItsCheck(r: DraftRecord) {
    r.evidence != [] ==>
      r.evidence[|r.evidence| - 1].state ==
      if r.state.AwaitingApproval? || r.state.Approved? then DraftState.ModelReviewed else r.state
  }

  // Approved, activated, deprecated and archived in this order, as far as it got.
  predicate TimesInOrder(v: VersionRecord) {
    && 0.0 <= v.createdAt <= v.approvedAt
    && (v.activatedAt.Some? ==> v.approvedAt <= v.activatedAt.value)
    && (v.deprecatedAt.Some? ==> v.activatedAt.Some? && v.activatedAt.value <= v.deprecatedAt.value)
    && (v.archivedAt.Some? ==> v.deprecatedAt.Some? && v.deprecatedAt.value <= v.archivedAt.value)
  }

  /** In every state of every run all evidence is trustworthy and every version's times are in order. */
  lemma RecordsInRuns(trace: seq<System>, steps: seq<Step>, i: nat)
    requires Run(trace, steps) && i < |trace|
    ensures var s := trace[i].Current();
            && (forall id :: id in s.drafts ==> EndsWithItsCheck(s.drafts[id]))
            && (forall id, k :: id in s.drafts && 0 <= k < |s.drafts[id].evidence| ==>
                  Trustworthy(s.drafts[id].evidence[k], s.drafts[id]))
            && (forall b, d :: Find(s.versions, b, d).Some? ==>
                  TimesInOrder(Find(s.versions, b, d).value)
                  && (Find(s.versions, b, d).value.sourceDraftId.Some? ==>
                        IsDraftId(Find(s.versions, b, d).value.sourceDraftId.value)))
  {
    RunsChain(trace, steps, i);
    var s := trace[i].Current();
    assert s == trace[i].history[|trace[i].history| - 1] && s.WellFormed();
    hide Run, Chain;
    forall id | id in s.drafts ensures EndsWithItsCheck(s.drafts[id]) {
      DraftIsSound(s.drafts[id]);
    }
    forall id, k | id in s.drafts && 0 <= k < |s.drafts[id].evidence|
      ensures Trustworthy(s.drafts[id].evidence[k], s.drafts[id])
    {
      DraftIsSound(s.drafts[id]);
    }
    forall b, d | Find(s.versions, b, d).Some?
      ensures TimesInOrder(Find(s.versions, b, d).value)
      ensures Find(s.versions, b, d).value.sourceDraftId.Some? ==>
                IsDraftId(Find(s.versions, b, d).value.sourceDraftId.value)
    {
      VersionAt(s, b, d);
      VersionIsSound(Find(s.versions, b, d).value);
    }
  }

  lemma DraftIsSound(r: DraftRecord)
    requires r.Ok()
    ensures EndsWithItsCheck(r)
    ensures forall k :: 0 <= k < |r.evidence| ==> Trustworthy(r.evidence[k], r)
  {
    hide IsTrimmed, IsDigest, IsName, IsDraftId;
  }

  lemma VersionIsSound(v: VersionRecord)
    requires v.Ok()
    ensures TimesInOrder(v) && (v.sourceDraftId.Some? ==> IsDraftId(v.sourceDraftId.value))
  {
    hide IsDigest, IsName, IsDraftId;
  }
}
