/**
 What a draft can be made to go through: from every well-formed state a new draft whose checks pass is
 recorded, validated, tested, reviewed, presented and put into operation, and at every stage it can fail
 the check it is at or be rejected.
 */
module LifecyclePaths {
  import opened Wrappers
  import opened Text
  import opened Lifecycle
  import opened LifecyclePlans
  import opened LifecyclePlanSafety
  import opened LifecycleEvolution
  import opened LifecycleEffects
  import opened LifecycleCodec
  import LifecycleRuns

  /** One process at work: each request is planned on the state the one before left. */
  function Play(s: LifecycleState, requests: seq<Request>): Option<LifecycleState>
    decreases |requests|
  {
    if requests == [] then Some(s)
    else
      var before := Play(s, requests[..|requests| - 1]);
      if before.None? then None
      else
        var p := PlanFor(before.value, requests[|requests| - 1]);
        if p.Ok? then Some(p.value.after) else None
  }

  /** A new draft, the evidence of its three passed checks, and when approval is asked for. */
  datatype Journey = Journey(
    record: DraftRecord, validated: Evidence, tested: Evidence, reviewed: Evidence, asked: real)
  {
    predicate Fits(e: Evidence, state: DraftState) {
      e.Ok() && e.state == state && e.draftDigest == record.digest
    }

    predicate Ok() {
      && record.Ok() && record.state.Draft?
      && Fits(validated, DraftState.StaticValidated)
      && Fits(tested, DraftState.SandboxTested)
      && Fits(reviewed, DraftState.ModelReviewed)
      && record.updatedAt <= validated.recordedAt <= tested.recordedAt <= reviewed.recordedAt <= asked
    }

    function Step(k: nat): Request
      requires k < 5
    {
      var id := record.draftId;
      if k == 0 then RecordDraft(record)
      else if k == 1 then TransitionDraft(id, DraftState.StaticValidated, validated.recordedAt, Some(validated))
      else if k == 2 then TransitionDraft(id, DraftState.SandboxTested, tested.recordedAt, Some(tested))
      else if k == 3 then TransitionDraft(id, DraftState.ModelReviewed, reviewed.recordedAt, Some(reviewed))
      else TransitionDraft(id, DraftState.AwaitingApproval, asked, None)
    }

    // Its first n steps.
    function Steps(n: nat): (r: seq<Request>)
      requires n <= 5
      ensures |r| == n
    {
      if n == 0 then [] else Steps(n - 1) + [Step(n - 1)]
    }

    function State(n: nat): DraftState
      requires 1 <= n <= 5
    {
      [DraftState.Draft, DraftState.StaticValidated, DraftState.SandboxTested, DraftState.ModelReviewed,
       DraftState.AwaitingApproval][n - 1]
    }

    function Time(n: nat): real
      requires 1 <= n <= 5
    {
      [record.updatedAt, validated.recordedAt, tested.recordedAt, reviewed.recordedAt, asked][n - 1]
    }
  }

  lemma PlayOn(s: LifecycleState, requests: seq<Request>, r: Request)
    ensures Play(s, requests + [r]) ==
            match Play(s, requests)
            case None => None
            case Some(t) => if PlanFor(t, r).Ok? then Some(PlanFor(t, r).value.after) else None
  {
    assert (requests + [r])[..|requests|] == requests;
  }

  ghost predicate SameVersions(s: LifecycleState, t: LifecycleState) {
    forall b, d :: t.Version(b, d) == s.Version(b, d) && (Runs(t, b, d) <==> Runs(s, b, d))
  }

  // The draft has come to this state at this time, and nothing happened to the versions.
  ghost predicate Moved(j: Journey, s: LifecycleState, t: LifecycleState, state: DraftState, time: real) {
    && t.WellFormed() && j.record.draftId in t.drafts
    && var d := t.drafts[j.record.draftId];
    && d.state == state && d.updatedAt == time
    && d.bundleId == j.record.bundleId && d.digest == j.record.digest
    && SameVersions(s, t)
  }

  ghost predicate Reached(j: Journey, s: LifecycleState, t: LifecycleState, n: nat)
    requires 1 <= n <= 5
  {
    Moved(j, s, t, j.State(n), j.Time(n))
  }

  lemma FirstStep(j: Journey, s: LifecycleState)
    requires s.WellFormed() && j.Ok() && j.record.draftId !in s.drafts
    ensures PlanFor(s, j.Step(0)).Ok? && Reached(j, s, PlanFor(s, j.Step(0)).value.after, 1)
  {
    hide LifecycleState.WellFormed, DraftRecord.Ok, Evidence.Ok, PlanFor, TimeAllows, LifecycleState.Version;
    var r := j.Step(0);
    NoVersionsInvolved(s, r);
    AcceptedExactly(s, r);
    ExactChange(s, r);
    PlannersNeverBreak(s, r);
    var t := PlanFor(s, r).value.after;
    assert Get(t.drafts, j.record.draftId) == DraftAfter(s, r, j.record.draftId);
  }

  // One more step of the journey, or the draft's end at this stage.
  lemma StepAccepted(
    j: Journey, s: LifecycleState, t: LifecycleState, n: nat, target: DraftState, now: real, item: Option<Evidence>)
    requires j.Ok() && 1 <= n <= 5 && Reached(j, s, t, n)
    requires LeadsTo(j.State(n), target) && j.Time(n) <= now
    requires item.Some? <==> TakesEvidence(target)
    requires item.Some? ==> j.Fits(item.value, target) && item.value.recordedAt == now
    ensures var r := TransitionDraft(j.record.draftId, target, now, item);
            PlanFor(t, r).Ok? && Moved(j, s, PlanFor(t, r).value.after, target, now)
  {
    hide LifecycleState.WellFormed, DraftRecord.Ok, Evidence.Ok, PlanFor, NoLater;
    hide LifecycleState.Version, TakesEvidence;
    var r := TransitionDraft(j.record.draftId, target, now, item);
    NoVersionsInvolved(t, r);
    AcceptedExactly(t, r);
    ExactChange(t, r);
    PlannersNeverBreak(t, r);
    var u := PlanFor(t, r).value.after;
    assert Get(u.drafts, j.record.draftId) == DraftAfter(t, r, j.record.draftId);
  }

  /** Every new draft with passed checks goes all the way to being presented for approval. */
  lemma {:induction false} DraftGoes(j: Journey, s: LifecycleState, n: nat)
    requires s.WellFormed() && j.Ok() && j.record.draftId !in s.drafts && 1 <= n <= 5
    ensures Play(s, j.Steps(n)).Some? && Reached(j, s, Play(s, j.Steps(n)).value, n)
  {
    hide LifecycleState.WellFormed, DraftRecord.Ok, Evidence.Ok, PlanFor, Reached, Moved;
    PlayOn(s, j.Steps(n - 1), j.Step(n - 1));
    if n == 1 {
      FirstStep(j, s);
    } else {
      DraftGoes(j, s, n - 1);
      StepTaken(j, s, Play(s, j.Steps(n - 1)).value, n - 1);
    }
  }

  lemma StepTaken(j: Journey, s: LifecycleState, t: LifecycleState, n: nat)
    requires j.Ok() && 1 <= n < 5 && Reached(j, s, t, n)
    ensures PlanFor(t, j.Step(n)).Ok? && Reached(j, s, PlanFor(t, j.Step(n)).value.after, n + 1)
  {
    hide LifecycleState.WellFormed, DraftRecord.Ok, Evidence.Ok, PlanFor, Moved;
    match n {
      case 1 => StepAccepted(j, s, t, 1, DraftState.StaticValidated, j.validated.recordedAt, Some(j.validated));
      case 2 => StepAccepted(j, s, t, 2, DraftState.SandboxTested, j.tested.recordedAt, Some(j.tested));
      case 3 => StepAccepted(j, s, t, 3, DraftState.ModelReviewed, j.reviewed.recordedAt, Some(j.reviewed));
      case _ => StepAccepted(j, s, t, 4, DraftState.AwaitingApproval, j.asked, None);
    }
  }

  /** Where a draft can end, by how many steps of the journey it has taken. */
  predicate EndsAt(n: nat, end: DraftState) {
    match end
    case ValidationFailed => n == 1
    case TestFailed => n == 2
    case ReviewFailed => n == 3 || n == 4
    case Rejected => 1 <= n <= 5
    case _ => false
  }

  lemma EndLeads(j: Journey, n: nat, end: DraftState)
    requires 1 <= n <= 5 && EndsAt(n, end)
    ensures LeadsTo(j.State(n), end) && TakesEvidence(end)
  {
  }

  /** At every stage the draft can fail the check it is at, or be rejected, given the evidence. */
  lemma DraftCanEnd(j: Journey, s: LifecycleState, n: nat, end: DraftState, e: Evidence)
    requires s.WellFormed() && j.Ok() && j.record.draftId !in s.drafts
    requires 1 <= n <= 5 && EndsAt(n, end) && j.Fits(e, end) && j.Time(n) <= e.recordedAt
    ensures var t := Play(s, j.Steps(n) + [TransitionDraft(j.record.draftId, end, e.recordedAt, Some(e))]);
            t.Some? && j.record.draftId in t.value.drafts && t.value.drafts[j.record.draftId].state == end
  {
    hide LifecycleState.WellFormed, DraftRecord.Ok, Evidence.Ok, PlanFor, LeadsTo, EndsAt, TakesEvidence, Journey.State;
    EndLeads(j, n, end);
    DraftGoes(j, s, n);
    var r := TransitionDraft(j.record.draftId, end, e.recordedAt, Some(e));
    PlayOn(s, j.Steps(n), r);
    StepAccepted(j, s, Play(s, j.Steps(n)).value, n, end, e.recordedAt, Some(e));
  }

  /** The rejecting request does the same as a transition to the rejected state. */
  lemma DraftCanBeRejected(j: Journey, s: LifecycleState, n: nat, e: Evidence)
    requires s.WellFormed() && j.Ok() && j.record.draftId !in s.drafts
    requires 1 <= n <= 5 && j.Fits(e, DraftState.Rejected) && j.Time(n) <= e.recordedAt
    ensures var t := Play(s, j.Steps(n) + [RejectDraft(j.record.draftId, e.recordedAt, e)]);
            t.Some? && j.record.draftId in t.value.drafts && t.value.drafts[j.record.draftId].state.Rejected?
  {
    hide LifecycleState.WellFormed, DraftRecord.Ok, Evidence.Ok, PlanFor;
    DraftGoes(j, s, n);
    var r := RejectDraft(j.record.draftId, e.recordedAt, e);
    PlayOn(s, j.Steps(n), r);
    RejectAccepted(j, s, Play(s, j.Steps(n)).value, n, e);
  }

  lemma RejectAccepted(j: Journey, s: LifecycleState, t: LifecycleState, n: nat, e: Evidence)
    requires j.Ok() && 1 <= n <= 5 && Reached(j, s, t, n) && j.Fits(e, DraftState.Rejected) && j.Time(n) <= e.recordedAt
    ensures var r := RejectDraft(j.record.draftId, e.recordedAt, e);
            PlanFor(t, r).Ok? && Moved(j, s, PlanFor(t, r).value.after, DraftState.Rejected, e.recordedAt)
  {
    hide LifecycleState.WellFormed, DraftRecord.Ok, Evidence.Ok, PlanFor, NoLater;
    hide LifecycleState.Version, TakesEvidence;
    var r := RejectDraft(j.record.draftId, e.recordedAt, e);
    NoVersionsInvolved(t, r);
    AcceptedExactly(t, r);
    ExactChange(t, r);
    PlannersNeverBreak(t, r);
    assert Get(PlanFor(t, r).value.after.drafts, j.record.draftId) == DraftAfter(t, r, j.record.draftId);
  }

  /** The draft's version can be used, and no version of its bundle has a later time. */
  ghost predicate Startable(s: LifecycleState, b: string, d: string, now: real) {
    && Usable(s.Version(b, d))
    && forall x :: s.Version(b, x).Some? ==> NoLater(s.Version(b, x).value, now)
  }

  /** A draft whose checks passed can be approved and put into operation at once. */
  lemma PassedDraftRuns(j: Journey, s: LifecycleState, now: real, expected: Option<string>)
    requires s.WellFormed() && j.Ok() && j.record.draftId !in s.drafts && j.asked <= now
    requires Startable(s, j.record.bundleId, j.record.digest, now)
    requires expected.Some? ==> expected.value == j.record.digest
    ensures var t := Play(s, j.Steps(5) + [ActivateFromDraft(j.record.draftId, now, expected)]);
            t.Some? && Runs(t.value, j.record.bundleId, j.record.digest)
            && j.record.draftId in t.value.drafts && t.value.drafts[j.record.draftId].state.Approved?
  {
    hide LifecycleState.WellFormed, DraftRecord.Ok, Evidence.Ok, PlanFor, Startable;
    DraftGoes(j, s, 5);
    var r := ActivateFromDraft(j.record.draftId, now, expected);
    PlayOn(s, j.Steps(5), r);
    LaunchAccepted(j, s, Play(s, j.Steps(5)).value, now, expected);
  }

  lemma LaunchAccepted(j: Journey, s: LifecycleState, t: LifecycleState, now: real, expected: Option<string>)
    requires j.Ok() && Reached(j, s, t, 5) && j.asked <= now && Startable(s, j.record.bundleId, j.record.digest, now)
    requires expected.Some? ==> expected.value == j.record.digest
    ensures var r := ActivateFromDraft(j.record.draftId, now, expected);
            && PlanFor(t, r).Ok? && Runs(PlanFor(t, r).value.after, j.record.bundleId, j.record.digest)
            && j.record.draftId in PlanFor(t, r).value.after.drafts
            && PlanFor(t, r).value.after.drafts[j.record.draftId].state.Approved?
  {
    hide LifecycleState.WellFormed, DraftRecord.Ok, Evidence.Ok, PlanFor, NoLater, LifecycleState.Version;
    var r := ActivateFromDraft(j.record.draftId, now, expected);
    assert VersionsInTime(t, r);
    AcceptedExactly(t, r);
    ExactChange(t, r);
    var u := PlanFor(t, r).value.after;
    assert Get(u.drafts, j.record.draftId) == DraftAfter(t, r, j.record.draftId);
  }

  /* ---------- approval by the person who reviewed ---------- */

  /** The stamp names the draft, its content, this very state and what the bundle runs. */
  predicate Stamped(s: LifecycleState, draftId: string, stamp: LifecycleRuns.Stamp)
    requires draftId in s.drafts
  {
    var r := s.drafts[draftId];
    && stamp.draftId == draftId && stamp.digest == r.digest
    && stamp.revision == s.revision && stamp.stateDigest == StateDigest(s)
    && stamp.active == Get(s.active, r.bundleId)
  }

  // At least the first eight characters of the digest.
  predicate Abbreviates(hash: string, digest: string) {
    8 <= |hash| <= |digest| && hash == digest[..|hash|]
  }

  /** An approval is prepared exactly for a draft that waits for it, with its hash and the current stamp, in time. */
  lemma ApprovalPreparedExactly(
    s: LifecycleState, draftId: string, hash: string, stamp: LifecycleRuns.Stamp, now: real)
    requires s.WellFormed()
    ensures LifecycleRuns.PrepareApproval(s, draftId, hash, stamp, now).Ok? <==>
            && draftId in s.drafts && s.drafts[draftId].state.AwaitingApproval?
            && Abbreviates(hash, s.drafts[draftId].digest) && Stamped(s, draftId, stamp)
            && Usable(DraftVersion(s, draftId))
            && InTime(s, ActivateFromDraft(draftId, now, Some(s.drafts[draftId].digest)))
    ensures LifecycleRuns.PrepareApproval(s, draftId, hash, stamp, now).Ok? ==>
              LifecycleRuns.PrepareApproval(s, draftId, hash, stamp, now) ==
              PlanFor(s, ActivateFromDraft(draftId, now, Some(s.drafts[draftId].digest)))
  {
    hide LifecycleState.WellFormed, PlanFor, InTime, LifecycleState.Version, IsDraftId, EvidenceStates, StateDigest;
    if draftId in s.drafts {
      DraftFacts(s, draftId);
      AcceptedExactly(s, ActivateFromDraft(draftId, now, Some(s.drafts[draftId].digest)));
      assert hash <= s.drafts[draftId].digest <==>
             |hash| <= |s.drafts[draftId].digest| && hash == s.drafts[draftId].digest[..|hash|];
    }
  }

  /** Whoever was shown a waiting draft can approve it with its stamp, as long as nothing was persisted since. */
  lemma ReviewedDraftIsApproved(j: Journey, s: LifecycleState, now: real, n: nat)
    requires s.WellFormed() && j.Ok() && j.record.draftId !in s.drafts && j.asked <= now
    requires Startable(s, j.record.bundleId, j.record.digest, now) && 8 <= n <= |j.record.digest|
    ensures var t := Play(s, j.Steps(5));
            t.Some? && j.record.draftId in t.value.drafts
            && var stamp := LifecycleRuns.StampFor(t.value, j.record.draftId);
            var p := LifecycleRuns.PrepareApproval(t.value, j.record.draftId, j.record.digest[..n], stamp, now);
            p.Ok? && Runs(p.value.after, j.record.bundleId, j.record.digest)
  {
    hide LifecycleState.WellFormed, DraftRecord.Ok, Evidence.Ok, PlanFor, Startable, StateDigest;
    DraftGoes(j, s, 5);
    var t := Play(s, j.Steps(5)).value;
    var id, hash := j.record.draftId, j.record.digest[..n];
    LaunchAccepted(j, s, t, now, Some(j.record.digest));
    AcceptedExactly(t, ActivateFromDraft(id, now, Some(j.record.digest)));
    ApprovalPreparedExactly(t, id, hash, LifecycleRuns.StampFor(t, id), now);
  }

  /* ---------- the same among many processes ---------- */

  // What a process does for one request: it reads, plans and commits.
  function Handled(y: LifecycleRuns.System, r: Request, p: Plan): seq<LifecycleRuns.Step> {
    [LifecycleRuns.Read, LifecycleRuns.Make(y.Current(), r), LifecycleRuns.Commit(p)]
  }

  lemma CurrentIsWellFormed(y: LifecycleRuns.System)
    requires LifecycleRuns.Chain(y)
    ensures y.history != [] && y.Current() in y.history && y.Current().WellFormed()
  {
    hide LifecycleState.WellFormed;
    LifecycleRuns.HistoryMember(y, y.Current());
  }

  // A plan made from the current state fits it, and a no-op plan's after state is the current one.
  lemma PlanFits(y: LifecycleRuns.System, r: Request, p: Plan)
    requires LifecycleRuns.Chain(y) && PlanFor(y.Current(), r) == Ok(p)
    ensures y.history != [] && y.Matches(p) && (p.noOp ==> p.after == y.Current())
  {
    CurrentIsWellFormed(y);
    hide LifecycleState.WellFormed, PlanFor, LifecycleRuns.Chain;
    PlannersNeverBreak(y.Current(), r);
  }

  /** A request that is accepted in the current state is persisted, unless another process commits first. */
  lemma RequestPersists(y: LifecycleRuns.System, r: Request, p: Plan)
    returns (a: LifecycleRuns.System, b: LifecycleRuns.System, c: LifecycleRuns.System)
    requires LifecycleRuns.Chain(y) && PlanFor(y.Current(), r) == Ok(p)
    ensures LifecycleRuns.Next(y, LifecycleRuns.Read) == Some(a)
    ensures LifecycleRuns.Next(a, LifecycleRuns.Make(y.Current(), r)) == Some(b)
    ensures LifecycleRuns.Next(b, LifecycleRuns.Commit(p)) == Some(c)
    ensures c.Current() == p.after && y.history <= c.history
  {
    hide LifecycleState.WellFormed, PlanFor, StateDigest, Plan.Ok, LifecycleRuns.Chain;
    PlanFits(y, r, p);
    a := y.(seen := y.seen + {y.Current()});
    b := a.(plans := a.plans + {p});
    assert b.Matches(p) && b.Current() == y.Current();
    c := if p.noOp then b else b.(history := b.history + [p.after]);
  }

  /** Whatever one process can play from a state happens in some run of many that starts there. */
  lemma {:induction false} PlayIsARun(s: LifecycleState, requests: seq<Request>)
    returns (trace: seq<LifecycleRuns.System>, steps: seq<LifecycleRuns.Step>)
    requires s.WellFormed() && Play(s, requests).Some?
    ensures LifecycleRuns.Run(trace, steps) && trace[0] == LifecycleRuns.Start(s)
    ensures trace[|trace| - 1].Current() == Play(s, requests).value
    decreases |requests|
  {
    hide LifecycleState.WellFormed, PlanFor, LifecycleRuns.Next;
    if requests == [] {
      trace, steps := [LifecycleRuns.Start(s)], [];
    } else {
      var n := |requests| - 1;
      var t0, u0 := PlayIsARun(s, requests[..n]);
      var y := t0[|t0| - 1];
      var p := PlanFor(y.Current(), requests[n]).value;
      LifecycleRuns.RunsChain(t0, u0, |t0| - 1);
      var a, b, c := RequestPersists(y, requests[n], p);
      trace, steps := t0 + [a, b, c], u0 + Handled(y, requests[n], p);
      forall i | 0 <= i < |steps| ensures LifecycleRuns.Next(trace[i], steps[i]) == Some(trace[i + 1]) {
        if i < |u0| {
          assert trace[i] == t0[i] && trace[i + 1] == t0[i + 1] && steps[i] == u0[i];
        }
      }
    }
  }

  /* ---------- a first tool ---------- */

  function Evid(state: DraftState, digest: string, at: real): Evidence {
    Evidence(state, digest, "pipeline", "passed", "ok", at, [])
  }

  lemma EvidOk(state: DraftState, digest: string, at: real)
    requires state in SUCCESS_STATES && IsDigest(digest) && at >= 0.0
    ensures Evid(state, digest, at).Ok()
  {
    hide IsDigest;
  }

  /** From the empty state: a small tool is recorded, checked, approved and runs. */
  lemma FirstToolRuns(digest: string) returns (j: Journey)
    requires IsDigest(digest)
    ensures j.Ok() && j.record.bundleId == "dice"
    ensures var t := Play(EMPTY, j.Steps(5) + [ActivateFromDraft("draft-1", 5.0, Some(digest))]);
            t.Some? && Runs(t.value, "dice", digest)
  {
    var record := DraftRecord("draft-1", "dice", digest, DraftState.Draft, 1.0, 1.0, []);
    assert IsName("dice") && IsDraftId("draft-1");
    EvidOk(DraftState.StaticValidated, digest, 2.0);
    EvidOk(DraftState.SandboxTested, digest, 3.0);
    EvidOk(DraftState.ModelReviewed, digest, 4.0);
    j := Journey(record, Evid(DraftState.StaticValidated, digest, 2.0), Evid(DraftState.SandboxTested, digest, 3.0),
                 Evid(DraftState.ModelReviewed, digest, 4.0), 4.5);
    assert EvidenceStates([]) == {};
    assert record.Ok();
    assert EMPTY.WellFormed();
    hide LifecycleState.WellFormed, DraftRecord.Ok, Evidence.Ok, IsName, IsDigest, IsDraftId;
    PassedDraftRuns(j, EMPTY, 5.0, Some(digest));
  }

  /** There are digests. */
  lemma DigestExists()
    ensures IsDigest(seq(64, i => '0'))
  {
  }
}
