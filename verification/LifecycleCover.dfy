/**
 Plans and directories: a plan made by a planner adds no version beyond the one its request is meant to
 publish, so an attempt that carries it, and publishes the draft's version when there is one, meets the
 condition under which no committed state loses a version directory.
 */
module LifecycleCover {
  import opened Wrappers
  import opened Lifecycle
  import opened LifecycleCodec
  import opened LifecyclePlans
  import opened LifecyclePlanSafety
  import opened LifecycleEvolution
  import opened LifecycleEffects
  import opened LifecycleDisk
  import opened LifecycleStore

  /** The directory a request has to publish before its plan is committed. */
  function ToPublish(s: LifecycleState, r: Request): set<Slot> {
    if Maker(r).Some? && Maker(r).value in s.drafts then
      {Slot(s.drafts[Maker(r).value].bundleId, s.drafts[Maker(r).value].digest)}
    else {}
  }

  lemma NewSlots(s: LifecycleState, r: Request)
    requires s.WellFormed() && PlanFor(s, r).Ok?
    ensures Slots(PlanFor(s, r).value.after) <= Slots(s) + ToPublish(s, r)
  {
    hide LifecycleState.WellFormed, PlanFor, Done, InTime, DraftsChange, GrantsChange, RunningChanges, Usable;
    ExactChange(s, r);
    AcceptedExactly(s, r);
    var t := PlanFor(s, r).value.after;
    forall k | k in Slots(t) ensures k in Slots(s) + ToPublish(s, r) {
      assert t.Version(k.bundleId, k.digest) == VersionAfter(s, r, k.bundleId, k.digest);
      if s.Version(k.bundleId, k.digest).None? {
        VersionsAdded(s, r, k.bundleId, k.digest);
      }
    }
  }

  lemma VersionsAdded(s: LifecycleState, r: Request, b: string, d: string)
    requires s.WellFormed() && PlanFor(s, r).Ok? && VersionAfter(s, r, b, d).Some? && s.Version(b, d).None?
    ensures Slot(b, d) in ToPublish(s, r)
  {
    hide LifecycleState.WellFormed, PlanFor, InTime;
    AcceptedExactly(s, r);
  }

  /** The plan of a request covers its versions as soon as the draft's directory is published, if there is one. */
  lemma PlansCover(s: LifecycleState, r: Request, a: Attempt)
    requires s.WellFormed() && PlanFor(s, r) == Result.Ok(a.plan) && ToPublish(s, r) <= a.Publishes()
    ensures a.Ok() && a.Covers() && a.Matches(s)
  {
    hide LifecycleState.WellFormed, PlanFor, ToPublish, StateDigest, Slots, Plan.Ok;
    PlannersNeverBreak(s, r);
    NewSlots(s, r);
    forall other: LifecycleState | other.WellFormed() && a.Matches(other)
      ensures Slots(a.plan.after) <= Slots(other) + a.Publishes()
    {
      DigestSeparates(other, s);
    }
  }

  lemma SlotsStay(s: LifecycleState, r: Request)
    requires s.WellFormed() && PlanFor(s, r).Ok?
    ensures Slots(s) <= Slots(PlanFor(s, r).value.after)
  {
    hide LifecycleState.WellFormed, PlanFor, DraftsChange, GrantsChange, RunningChanges, Starts, Stops, Names, Started;
    ExactChange(s, r);
    var t := PlanFor(s, r).value.after;
    forall k | k in Slots(s) ensures k in Slots(t) {
      assert t.Version(k.bundleId, k.digest) == VersionAfter(s, r, k.bundleId, k.digest);
    }
  }

  lemma SameSlots(s: LifecycleState, t: LifecycleState)
    requires s.versions == t.versions
    ensures Slots(s) == Slots(t)
  {
  }

  /** The plan that puts back what was there before another plan adds no version and needs no publication. */
  lemma RestoringCovers(before: LifecycleState, r: Request, s: LifecycleState, failed: Plan, a: Attempt)
    requires before.WellFormed() && s.WellFormed() && PlanFor(before, r) == Result.Ok(failed)
    requires PlanRestore(s, before, failed) == Result.Ok(a.plan)
    ensures a.Ok() && a.Covers() && a.Matches(s) && s == failed.after
  {
    hide LifecycleState.WellFormed, PlanFor, StateDigest, PlanRestore, Slots, Plan.Ok;
    PlannersNeverBreak(before, r);
    RestoreSound(s, before, failed);
    DigestSeparates(s, failed.after);
    SlotsStay(before, r);
    SameSlots(a.plan.after, before);
    forall other: LifecycleState | other.WellFormed() && a.Matches(other)
      ensures Slots(a.plan.after) <= Slots(other) + a.Publishes()
    {
      DigestSeparates(other, s);
    }
  }
}
