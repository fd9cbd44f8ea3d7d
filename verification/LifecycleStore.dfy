/**
 The durable store under the lifecycle state. Every call holds the exclusive file lock, so calls of
 different processes come one after another, except that a process may die at any moment of its call.
 Every disk content a call goes through is kept in `trace`.
 */
module LifecycleStore {
  import opened Wrappers
  import opened Lifecycle
  import opened LifecycleCodec
  import opened LifecycleDisk
  import opened LifecyclePlans

  datatype CommitError = Superseded | PublishFailed | Unwritten | Doubtful(visible: bool, confirmed: bool) | Unreadable

  /** One call that commits a plan: an optional publication first, and how the system answers. */
  datatype Attempt = Attempt(plan: Plan, publish: Option<Publish>, readable: bool, io: StateIo)
  {
    ghost predicate Ok() {
      plan.Ok() && plan.after.WellFormed()
    }

    function Publishes(): set<Slot> {
      if publish.Some? then {publish.value.slot} else {}
    }

    // The state can be read, is the one the plan was made from, and any publication succeeds.
    predicate Proceeds(s: LifecycleState, d: Disk) {
      && readable && Matches(s)
      && (publish.Some? ==> publish.value.slot in Slots(plan.after) && publish.value.Succeeds(d))
    }

    predicate Matches(s: LifecycleState) {
      s.revision == plan.expectedRevision && StateDigest(s) == plan.beforeDigest
    }

    /** The plan adds no version but the published one to the state it was made from. */
    ghost predicate Covers() {
      forall s: LifecycleState :: s.WellFormed() && Matches(s) ==> Slots(plan.after) <= Slots(s) + Publishes()
    }

    // It covers its versions, and the sync that makes a new version directory durable succeeds.
    ghost predicate Steady() {
      Covers() && (publish.Some? ==> publish.value.io.bundleSyncs)
    }
  }

  /** What another process does meanwhile: a commit, which may end at some moment with its process killed. */
  datatype Other = Other(attempt: Attempt, killedAt: Option<nat>)

  class Store {
    const layout: Layout
    var disk: Disk
    // every disk content, in order
    var trace: seq<Disk>
    // the states written so far, of which those before `floor` can no longer come back
    ghost var history: seq<LifecycleState>
    ghost var floor: nat
    // every attempt so far covered its versions and published into no directory that was removable
    ghost var careful: bool

    ghost predicate Valid()
      reads this
    {
      layout.Ok() && disk.Ok() && ChainOk(history) && floor < |history| && layout.Reflects(disk, history, floor)
    }

    ghost function Current(): LifecycleState
      requires history != []
      reads this
    {
      history[|history| - 1]
    }

    /** Every version of every state written so far has a directory that no power loss removes. */
    ghost predicate Firm()
      reads this
    {
      FirmOn(disk, history)
    }

    /** As long as attempts were careful, no power loss removes a version of any state written. */
    ghost predicate Safe()
      reads this
    {
      Valid() && (careful ==> Firm())
    }

    ghost function Seen(): View
      requires history != []
      reads this
    {
      View(disk, Current())
    }

    // So far careful, and no version directory is removable now.
    ghost predicate Calm()
      reads this
    {
      careful && disk.fragile == {}
    }

    constructor (layout: Layout, initial: LifecycleState)
      requires layout.Ok() && initial.WellFormed()
      ensures this.layout == layout && Safe() && Calm() && history == [initial]
      ensures disk == Disk(layout.ImageOf(initial), {layout.ImageOf(initial)}, Slots(initial), {})
    {
      this.layout := layout;
      disk := Disk(layout.ImageOf(initial), {layout.ImageOf(initial)}, Slots(initial), {});
      trace, history, floor, careful := [], [initial], 0, true;
      new;
      assert ChainOk(history);
    }

    /* ---------- writing the state file ---------- */

    method Step(d: Disk)
      modifies this`disk, this`trace
      ensures disk == d && trace == old(trace) + [d]
    {
      disk := d;
      trace := trace + [d];
    }

    method SyncRoot(answers: seq<bool>) returns (ok: bool)
      modifies this`disk, this`trace
      ensures ok == RootSyncs(answers)
      ensures disk == if ok then old(disk).RootSynced() else old(disk)
      ensures trace == old(trace) + (if ok then [disk] else [])
    {
      var attempt := 0;
      while attempt < SYNC_ATTEMPTS
        invariant 0 <= attempt <= SYNC_ATTEMPTS
        invariant forall i :: 0 <= i < attempt && i < |answers| ==> !answers[i]
        invariant disk == old(disk) && trace == old(trace)
      {
        if attempt < |answers| && answers[attempt] {
          Step(disk.RootSynced());
          return true;
        }
        attempt := attempt + 1;
      }
      return false;
    }

    /** The outcome tells the exact disk, and when each arises; no moment on the way leaves a torn file. */
    method WriteState(next: LifecycleState, io: StateIo) returns (outcome: WriteOutcome)
      requires layout.Ok() && next.WellFormed() && disk.Ok()
      modifies this`disk, this`trace
      ensures OutcomeMeans(old(disk), disk, layout.ImageOf(next), outcome)
      ensures outcome.NotWritten? <==> !Renames(io, |layout.ImageOf(next).bytes|)
      ensures !outcome.NotWritten? ==> (outcome.Written? || outcome.confirmed <==> RootSyncs(io.rootSyncs))
      ensures outcome.Written? ==> io.readsBack
      ensures outcome.Uncertain? ==> outcome.visible == io.readsAgain && (outcome.confirmed ==> !io.readsBack)
      ensures var moments := WriteMoments(old(disk), layout.ImageOf(next), io, |layout.ImageOf(next).bytes|);
              trace == old(trace) + moments && disk == Last(old(disk), moments)
      ensures forall i :: |old(trace)| <= i < |trace| ==> DuringWrite(old(disk), trace[i], layout.ImageOf(next))
    {
      hide LifecycleState.WellFormed, EncodeState, DecodeState;
      var content := layout.render(EncodeState(next));
      layout.LoadsBack(next);
      if !io.readsOld || !io.creates {
        return NotWritten;
      }
      var file := WriteFile(content, io.writes, io.syncs);
      if file.None? || !io.renames {
        return NotWritten;
      }
      Step(disk.Replaced(file.value));
      ghost var replaced := disk;
      var confirmed := SyncRoot(io.rootSyncs);
      assert trace == old(trace) + ([replaced] + if confirmed then [disk] else []);
      var image := layout.ImageOf(next);
      assert replaced == old(disk).(state := image, survivors := old(disk).survivors + {image});
      assert WriteMoments(old(disk), image, io, |image.bytes|) == [replaced] + if confirmed then [disk] else [];
      if confirmed && io.readsBack && layout.Holds(disk.state, next) {
        return Written;
      }
      return Uncertain(io.readsAgain && layout.Holds(disk.state, next), confirmed);
    }

    /* ---------- publishing a version directory ---------- */

    method CopyFiles(io: PublishIo) returns (ok: bool)
      ensures ok == io.FilesCopy()
    {
      var i := 0;
      while i < BUNDLE_FILES
        invariant 0 <= i <= BUNDLE_FILES && i <= |io.files| && i <= |io.writes| && i <= |io.syncs|
        invariant forall k :: 0 <= k < i ==> Takes(io.writes[k], |io.files[k]|) && io.syncs[k]
      {
        if i >= |io.files| || i >= |io.writes| || i >= |io.syncs| {
          return false;
        }
        var file := WriteFile(io.files[i], io.writes[i], io.syncs[i]);
        if file.None? {
          return false;
        }
        i := i + 1;
      }
      return true;
    }

    method PublishVersion(p: Publish) returns (ok: bool)
      requires disk.Ok()
      modifies this`disk, this`trace
      ensures PublishMeans(old(disk), disk, p.slot, ok) && disk.Ok()
      ensures var moments := PublishMoments(old(disk), p);
              trace == old(trace) + moments && disk == Last(old(disk), moments)
      ensures forall i :: |old(trace)| <= i < |trace| ==> DuringPublish(old(disk), trace[i], p.slot)
      ensures ok == p.Succeeds(old(disk))
      ensures p.slot in disk.fragile <==> p.slot in old(disk).fragile || p.LeavesFragile(old(disk))
    {
      if p.io.sourceDigest != p.slot.digest || !p.io.rootSyncs {
        return false;
      }
      Step(disk.RootSynced());
      if !p.io.versionsSyncs {
        return false;
      }
      if p.slot in disk.slots {
        return p.io.existingValid;
      }
      if !p.io.makesTree {
        return false;
      }
      var copied := CopyFiles(p.io);
      if !copied || !p.io.copyValid || !p.io.treeSyncs || !p.io.renames {
        return false;
      }
      Step(disk.Published(p.slot));
      if !p.io.bundleSyncs {
        return false;
      }
      Step(disk.BundleSynced(p.slot.bundleId));
      return p.io.finalValid;
    }

    /* ---------- committing a plan ---------- */

    /** The write of a changed state that continues the chain. */
    method Replace(after: LifecycleState, io: StateIo) returns (r: Result<LifecycleState, CommitError>)
      requires Valid() && after.WellFormed() && after.revision == Current().revision + 1
      modifies this`disk, this`trace, this`history, this`floor
      ensures Valid() && old(floor) <= floor && old(trace) <= trace
      ensures Answers(io, |layout.ImageOf(after).bytes|, r)
      ensures r.Ok? ==> r.value == after
      ensures history == old(history) + (if r.Ok? || r.error.Doubtful? then [after] else [])
      ensures r.Ok? || (r.error.Doubtful? && r.error.confirmed) ==>
              disk.survivors == {disk.state} && floor == |history| - 1
      ensures r.Err? && r.error.Doubtful? && !r.error.confirmed ==>
                disk.survivors == old(disk).survivors + {disk.state} && floor == old(floor)
      ensures disk.slots == old(disk).slots && disk.fragile == old(disk).fragile
      ensures r == Err(Unwritten) ==> disk == old(disk)
      ensures var moments := WriteMoments(old(disk), layout.ImageOf(after), io, |layout.ImageOf(after).bytes|);
              trace == old(trace) + moments && disk == Last(old(disk), moments)
    {
      hide LifecycleState.WellFormed, EncodeState, DecodeState, Layout.Reflects;
      ghost var d0, states := disk, history;
      var outcome := WriteState(after, io);
      match outcome {
        case NotWritten => r := Err(Unwritten);
        case Uncertain(visible, confirmed) =>
          layout.ReflectsGrows(d0, disk, states, floor, after);
          history := history + [after];
          floor := if confirmed then |history| - 1 else floor;
          r := Err(Doubtful(visible, confirmed));
        case Written =>
          layout.ReflectsGrows(d0, disk, states, floor, after);
          history := history + [after];
          floor := |history| - 1;
          r := Result.Ok(after);
      }
    }

    /** The optional publication before a write; the state is unchanged and becomes durable. */
    method PublishFirst(publish: Option<Publish>) returns (ok: bool)
      requires Valid()
      modifies this`disk, this`trace, this`floor
      ensures Valid() && history == old(history) && old(floor) <= floor && old(trace) <= trace
      ensures publish.None? ==> ok && disk == old(disk) && floor == old(floor) && trace == old(trace)
      ensures publish.Some? ==> PublishMeans(old(disk), disk, publish.value.slot, ok)
      ensures publish.Some? && ok ==> floor == |history| - 1
      ensures publish.Some? ==>
                var moments := PublishMoments(old(disk), publish.value);
                trace == old(trace) + moments && disk == Last(old(disk), moments)
      ensures old(Firm()) ==> Firm()
      ensures ok <==> publish.None? || publish.value.Succeeds(old(disk))
      ensures publish.Some? ==> (publish.value.slot in disk.fragile <==>
                                 publish.value.slot in old(disk).fragile || publish.value.LeavesFragile(old(disk)))
    {
      hide LifecycleState.WellFormed, EncodeState, Layout.Reflects, ChainOk, FirmOn;
      ok := true;
      if publish.Some? {
        ghost var was := disk;
        ok := PublishVersion(publish.value);
        FirmUnder(was, disk, history);
        layout.ReflectsKept(was, disk, history, floor);
        floor := if ok then |history| - 1 else floor;
      }
    }

    /** A commit once the persisted state is known to be the one the plan was made from. */
    method Apply(a: Attempt) returns (r: Result<LifecycleState, CommitError>)
      requires Valid() && a.Ok() && a.Matches(Current()) && a.Publishes() <= Slots(a.plan.after)
      modifies this`disk, this`trace, this`history, this`floor
      ensures Valid() && old(floor) <= floor && old(trace) <= trace
      ensures r.Ok? ==> r.value == a.plan.after == Current()
      ensures if a.publish.Some? && !a.publish.value.Succeeds(old(disk)) then r == Err(PublishFailed)
              else if a.plan.noOp then r.Ok?
              else Answers(a.io, |layout.ImageOf(a.plan.after).bytes|, r)
      ensures history == old(history) + (if Wrote(a, r) then [a.plan.after] else [])
      ensures CommitMeans(old(disk), disk, a, r)
      ensures r.Ok? && (!a.plan.noOp || a.publish.Some?) ==> floor == |history| - 1
      ensures r.Err? && r.error.Doubtful? && r.error.confirmed ==> floor == |history| - 1
      ensures var moments := AppliedMoments(layout, old(disk), a);
              trace == old(trace) + moments && disk == Last(old(disk), moments)
      ensures (a.publish.Some? ==> a.publish.value.io.bundleSyncs) && old(disk).fragile == {} ==> disk.fragile == {}
    {
      hide LifecycleState.WellFormed, EncodeState, DecodeState, Layout.Reflects, Slots, Publish.Succeeds;
      hide WriteMoments, PublishMoments;
      var published := PublishFirst(a.publish);
      if !published {
        return Err(PublishFailed);
      }
      if a.plan.noOp {
        DigestSeparates(Current(), a.plan.after);
        return Result.Ok(a.plan.after);
      }
      r := Replace(a.plan.after, a.io);
    }

    /** One compare-and-swap commit. */
    method Commit(a: Attempt) returns (r: Result<LifecycleState, CommitError>)
      requires Safe() && a.Ok()
      modifies this
      ensures Safe() && old(floor) <= floor && old(trace) <= trace
      ensures r.Ok? ==> a.Matches(old(Current())) && r.value == a.plan.after == Current()
      // Exactly when it succeeds, and how a write ends once everything before it succeeded.
      ensures r.Ok? ==> a.Proceeds(old(Current()), old(disk))
      ensures !a.readable ==> r == Err(Unreadable)
      ensures a.readable && !(a.Matches(old(Current())) && a.Publishes() <= Slots(a.plan.after)) ==>
                r == Err(Superseded)
      ensures a.readable && a.Matches(old(Current())) && a.Publishes() <= Slots(a.plan.after) ==>
                a.Proceeds(old(Current()), old(disk)) || r == Err(PublishFailed)
      ensures a.Proceeds(old(Current()), old(disk)) ==>
                if a.plan.noOp then r.Ok? else Answers(a.io, |layout.ImageOf(a.plan.after).bytes|, r)
      ensures history == old(history) + (if Wrote(a, r) then [a.plan.after] else [])
      ensures CommitMeans(old(disk), disk, a, r)
      ensures r.Ok? && (!a.plan.noOp || a.publish.Some?) ==> floor == |history| - 1
      ensures r.Err? && r.error.Doubtful? ==> !a.plan.noOp && a.Matches(old(Current()))
      ensures r.Err? && r.error.Doubtful? && r.error.confirmed ==> floor == |history| - 1
      // Every moment on the way is safe.
      ensures forall i :: |old(trace)| <= i < |trace| ==>
                DuringCommit(old(disk), trace[i], layout.ImageOf(a.plan.after), a.Publishes())
      ensures forall i :: |old(trace)| <= i < |trace| ==>
                trace[i].state == old(disk).state || (a.Matches(old(Current())) && !a.plan.noOp)
      ensures var moments := CommitMoments(layout, old(disk), old(Current()), a);
              trace == old(trace) + moments && disk == Last(old(disk), moments)
      ensures careful == (old(careful) && a.Covers() && a.Publishes() !! old(disk).fragile)
      ensures old(Calm()) && a.Steady() ==> Calm()
    {
      hide LifecycleState.WellFormed, EncodeState, DecodeState, Layout.Reflects, Publish.Succeeds, AppliedMoments;
      hide CommitMeans, DuringCommit, Answers, FirmOn, Attempt.Covers;
      layout.ShowsLast(disk, history, floor);
      layout.LoadsBack(Current());
      NothingDone(disk, a, Unreadable);
      NothingDone(disk, a, Superseded);
      careful := careful && a.Covers() && a.Publishes() !! disk.fragile;
      if !a.readable {
        return Err(Unreadable);
      }
      var loaded := layout.Load(disk.state);
      if loaded.Err? {
        return Err(Unreadable);
      }
      if !a.Matches(loaded.value) || !(a.Publishes() <= Slots(a.plan.after)) {
        return Err(Superseded);
      }
      ghost var d0, states := disk, history;
      r := Apply(a);
      forall i | |old(trace)| <= i < |trace| {
        MomentIsSafe(layout, d0, a, trace[i]);
      }
      CarefulAttempt(d0, states, a);
      FirmKept(d0, disk, states, a, r);
    }

    /* ---------- dying on the way ---------- */

    /** The disk a power loss leaves; an impossible one stands for losing nothing that is visible. */
    method LosePower(left: Disk)
      requires Safe()
      modifies this
      ensures Safe() && careful == old(careful)
      ensures disk == if old(disk).LosesTo(left) then left else old(disk).Settled()
      ensures disk.fragile == {} && old(floor) <= floor < |old(history)| && history == old(history)[..floor + 1]
      ensures layout.Load(disk.state) == Result.Ok(Current())
    {
      hide LifecycleState.WellFormed, EncodeState, DecodeState;
      var d := if disk.LosesTo(left) then left else disk.Settled();
      assert layout.Recalled(d.state, history, floor);
      ghost var k :| floor <= k < |history| && d.state == layout.ImageOf(history[k]);
      layout.LoadsBack(history[k]);
      disk, history, floor := d, history[..k + 1], k;
      assert layout.Recalled(d.state, history, k);
    }

    /** A process is killed at some moment of a commit: the state is from before or exactly the after state. */
    method Kill(a: Attempt, moment: nat)
      requires Safe() && a.Ok()
      modifies this
      ensures Safe() && old(floor) <= floor && old(history) <= history <= old(history) + [a.plan.after]
      ensures careful == (old(careful) && a.Covers() && a.Publishes() !! old(disk).fragile)
      ensures disk == Killed(layout, old(disk), old(Current()), a, moment)
    {
      hide LifecycleState.WellFormed, EncodeState, DecodeState, Layout.Reflects, FirmOn, Attempt.Covers, ChainOk;
      hide CommitMeans, DuringCommit, Careful, Answers, Attempt.Proceeds, CommitMoments;
      var d0, start := disk, |trace|;
      ghost var states, low := history, floor;
      CarefulAttempt(d0, states, a);
      var _ := Commit(a);
      if moment == 0 || start + moment <= |trace| {
        var m := if moment == 0 then d0 else trace[start + moment - 1];
        NoMoment(d0, layout.ImageOf(a.plan.after), a.Publishes());
        CutShort(layout, d0, states, low, a, m);
        disk, trace := m, trace[..start + moment];
        history := if m.state == d0.state then states else states + [a.plan.after];
        floor := low;
      }
    }

    /**
     A process dies at some moment of a commit, alone or with the power. Whatever the moment, what is
     there afterwards is a state from before or exactly the after state, and work goes on from it.
     */
    method Interrupt(a: Attempt, moment: nat, power: Option<Disk>)
      requires Safe() && a.Ok()
      modifies this
      ensures Safe() && old(floor) <= floor && old(history[..floor + 1]) <= history <= old(history) + [a.plan.after]
      ensures layout.Load(disk.state) == Result.Ok(Current())
      ensures careful == (old(careful) && a.Covers() && a.Publishes() !! old(disk).fragile)
      ensures old(Calm()) && a.Steady() && power.Some? ==> Calm()
      ensures var at := Killed(layout, old(disk), old(Current()), a, moment);
              disk == if power.None? then at else if at.LosesTo(power.value) then power.value else at.Settled()
    {
      hide LifecycleState.WellFormed, EncodeState, DecodeState, Layout.Reflects, FirmOn, Attempt.Covers;
      Kill(a, moment);
      layout.ShowsLast(disk, history, floor);
      if power.Some? {
        LosePower(power.value);
      } else {
        layout.LoadsBack(Current());
      }
    }

    method Others(other: Other)
      requires Safe() && other.attempt.Ok()
      modifies this
      ensures Safe() && old(floor) <= floor && old(history[..floor + 1]) <= history
      ensures old(Calm()) && other.attempt.Steady() && other.killedAt.None? ==> Calm()
    {
      hide LifecycleState.WellFormed, Layout.Reflects, FirmOn, Attempt.Covers, ChainOk, DuringCommit, CommitMeans;
      if other.killedAt.Some? {
        Interrupt(other.attempt, other.killedAt.value, None);
      } else {
        var _ := Commit(other.attempt);
      }
    }

    /* ---------- the caller ---------- */

    /** Settling a confirmed write by reading again, after what other processes did; never left in doubt. */
    method Settle(a: Attempt, meanwhile: seq<Other>, reloads: bool) returns (r: Result<LifecycleState, CommitError>)
      requires Safe() && a.Ok() && forall i :: 0 <= i < |meanwhile| ==> meanwhile[i].attempt.Ok()
      requires Current() == a.plan.after && floor == |history| - 1 && !a.plan.noOp
      modifies this
      ensures Safe() && old(floor) <= floor && old(history) <= history
      ensures r.Ok? ==> r.value == a.plan.after == Current() && disk.survivors == {disk.state} && floor == |history| - 1
      ensures r == if !reloads then Err(Unreadable)
                   else if Current() == a.plan.after then Result.Ok(a.plan.after) else Err(Superseded)
      ensures meanwhile == [] ==> history == old(history) && disk == old(disk)
      ensures old(Calm()) && AllSteady(meanwhile) ==> Calm()
    {
      hide LifecycleState.WellFormed, EncodeState, DecodeState, Layout.Reflects, FirmOn, Attempt.Steady;
      ghost var states := history;
      var i := 0;
      while i < |meanwhile|
        invariant 0 <= i <= |meanwhile| && Safe() && states <= history && |states| - 1 <= floor
        invariant meanwhile == [] ==> history == states && disk == old(disk)
        invariant old(Calm()) && AllSteady(meanwhile) ==> Calm()
      {
        Others(meanwhile[i]);
        i := i + 1;
      }
      layout.ShowsLast(disk, history, floor);
      layout.LoadsBack(Current());
      if !reloads {
        return Err(Unreadable);
      }
      var observed := layout.Load(disk.state);
      if observed.Err? {
        return Err(Unreadable);
      }
      assert history[|states| - 1] == a.plan.after;
      DigestSeparates(Current(), a.plan.after);
      if observed.value.revision == a.plan.after.revision && StateDigest(observed.value) == StateDigest(a.plan.after) {
        layout.OnlySurvivor(disk, history, floor);
        return Result.Ok(observed.value);
      }
      if a.Matches(observed.value) {
        return Err(Doubtful(true, true));
      }
      return Err(Superseded);
    }

    /**
     `_commit_lifecycle_plan`: a write whose directory sync succeeded but whose read-back failed is
     settled by reading again.
     */
    method CommitLifecyclePlan(a: Attempt, meanwhile: seq<Other>, reloads: bool)
      returns (r: Result<LifecycleState, CommitError>)
      requires Safe() && a.Ok() && forall i :: 0 <= i < |meanwhile| ==> meanwhile[i].attempt.Ok()
      modifies this
      ensures Safe() && old(floor) <= floor && old(history) <= history
      ensures r.Ok? ==> a.Matches(old(Current())) && r.value == a.plan.after == Current()
      // A normal return means the state is durable, except after a no-op that published nothing.
      ensures r.Ok? ==> (disk.survivors == {disk.state} <==>
                         !a.plan.noOp || a.publish.Some? || old(disk.survivors == {disk.state}))
      ensures r.Ok? && (!a.plan.noOp || a.publish.Some?) ==> floor == |history| - 1
      // What the caller is told, by what the system answered.
      ensures !a.readable ==> r == Err(Unreadable)
      ensures a.readable && old(Current()).revision != a.plan.expectedRevision ==> r == Err(Superseded)
      ensures a.readable && StateDigest(old(Current())) != a.plan.beforeDigest ==> r == Err(Superseded)
      ensures a.readable && a.Matches(old(Current())) && !(a.Publishes() <= Slots(a.plan.after)) ==>
                r == Err(Superseded)
      ensures a.readable && a.Matches(old(Current())) && a.Publishes() <= Slots(a.plan.after) ==>
                if a.publish.Some? && !a.publish.value.Succeeds(old(disk)) then r == Err(PublishFailed)
                else if a.plan.noOp then r.Ok?
                else if !Renames(a.io, |layout.ImageOf(a.plan.after).bytes|) then r == Err(Unwritten)
                else if !RootSyncs(a.io.rootSyncs) then r == Err(Doubtful(a.io.readsAgain, false))
                else if a.io.readsBack then r.Ok?
                else if !reloads then r == Err(Unreadable)
                else r == if Current() == a.plan.after then Result.Ok(a.plan.after) else Err(Superseded)
      ensures a.Proceeds(old(Current()), old(disk)) && Renames(a.io, |layout.ImageOf(a.plan.after).bytes|) ==>
                !a.plan.noOp && meanwhile == [] ==> Current() == a.plan.after
      ensures meanwhile == [] ==> disk == Last(old(disk), CommitMoments(layout, old(disk), old(Current()), a))
      ensures old(Calm()) && a.Steady() && AllSteady(meanwhile) ==> Calm()
    {
      hide LifecycleState.WellFormed, EncodeState, DecodeState, Layout.Reflects, ChainOk;
      hide Slots, FirmOn, Attempt.Steady, AllSteady;
      r := Commit(a);
      if r.Err? && r.error.Doubtful? && r.error.confirmed {
        r := Settle(a, meanwhile, reloads);
      }
    }

    /* ---------- whole runs ---------- */

    /**
     Any run of commits, processes killed in the middle of one, and power losses at any moment, inside a
     commit or between: a state that became durable stays in the chain for ever. If plans cover their
     versions, no last directory sync of a publication fails and no process is killed without the power
     going, every version of every state has a directory that no power loss removes.
     */
    method Run(events: seq<Event>) returns (ghost path: seq<View>)
      requires Safe() && forall i :: 0 <= i < |events| ==> events[i].Ok()
      modifies this
      ensures Safe() && old(floor) <= floor && old(history[..floor + 1]) <= history
      ensures |path| == |events| + 1 && path[0] == old(Seen()) && path[|events|] == Seen()
      ensures forall i :: 0 <= i < |events| ==> Took(layout, events[i], path[i], path[i + 1])
      ensures old(Calm()) && (forall i :: 0 <= i < |events| ==> events[i].Steady()) ==> Calm()
    {
      hide LifecycleState.WellFormed, EncodeState, DecodeState, Layout.Reflects, ChainOk, FirmOn;
      hide Disk.LosesTo, Attempt.Ok, Attempt.Steady, AllSteady, Killed, CommitMoments;
      var i := 0;
      path := [Seen()];
      while i < |events|
        invariant 0 <= i <= |events| && Safe() && old(floor) <= floor && old(history[..floor + 1]) <= history
        invariant old(Calm()) && (forall k :: 0 <= k < i ==> events[k].Steady()) ==> Calm()
        invariant |path| == i + 1 && path[0] == old(Seen()) && path[i] == Seen()
        invariant forall k :: 0 <= k < i ==> Took(layout, events[k], path[k], path[k + 1])
      {
        match events[i] {
          case Commits(a, meanwhile, reloads) =>
            var _ := CommitLifecyclePlan(a, meanwhile, reloads);
          case Dies(a, moment, power) =>
            Interrupt(a, moment, power);
          case Loses(left) =>
            LosePower(left);
        }
        path := path + [Seen()];
        i := i + 1;
      }
    }

    /**
     From end to end. When a commit that changed or published something returns normally, then after
     whatever happens later the persisted state is its after state or one of the chain after it; and in
     steady runs it has all its version directories, also after any further power loss.
     */
    method CommitAndGoOn(a: Attempt, meanwhile: seq<Other>, reloads: bool, events: seq<Event>)
      returns (r: Result<LifecycleState, CommitError>)
      requires Safe() && a.Ok() && forall i :: 0 <= i < |meanwhile| ==> meanwhile[i].attempt.Ok()
      requires forall i :: 0 <= i < |events| ==> events[i].Ok()
      modifies this
      ensures Safe() && layout.Load(disk.state) == Result.Ok(Current())
      ensures r.Ok? && (!a.plan.noOp || a.publish.Some?) ==>
                && a.plan.after in history && Current().revision >= a.plan.after.revision
                && disk.survivors <= ImagesFrom(a.plan.after)
      ensures old(Calm()) && a.Steady() && AllSteady(meanwhile)
              && (forall i :: 0 <= i < |events| ==> events[i].Steady()) ==>
                Slots(Current()) <= disk.slots - disk.fragile
    {
      hide LifecycleState.WellFormed, EncodeState, DecodeState, Layout.Reflects, Attempt.Steady, AllSteady;
      r := CommitLifecyclePlan(a, meanwhile, reloads);
      ghost var j := |history| - 1;
      ghost var _ := Run(events);
      layout.ShowsLast(disk, history, floor);
      layout.LoadsBack(Current());
      if r.Ok? && (!a.plan.noOp || a.publish.Some?) {
        assert history[j] == a.plan.after;
        NoneOlder(j);
      }
    }

    /** The images of states in the chain that are not older than this one. */
    ghost function ImagesFrom(s: LifecycleState): set<Image>
      reads this
    {
      set i | 0 <= i < |history| && history[i].revision >= s.revision :: layout.ImageOf(history[i])
    }

    lemma NoneOlder(j: nat)
      requires Valid() && j <= floor
      ensures j < |history| && disk.survivors <= ImagesFrom(history[j])
    {
      hide LifecycleState.WellFormed, EncodeState;
      forall image | image in disk.survivors ensures image in ImagesFrom(history[j]) {
        assert layout.Recalled(image, history, floor);
      }
    }
  }

  ghost predicate AllSteady(others: seq<Other>) {
    forall i :: 0 <= i < |others| ==> others[i].attempt.Steady() && others[i].killedAt.None?
  }

  datatype Event =
    | Commits(attempt: Attempt, meanwhile: seq<Other>, reloads: bool)
    | Dies(attempt: Attempt, moment: nat, power: Option<Disk>)
    | Loses(left: Disk)
  {
    ghost predicate Ok() {
      match this
      case Commits(a, meanwhile, _) => a.Ok() && forall i :: 0 <= i < |meanwhile| ==> meanwhile[i].attempt.Ok()
      case Dies(a, _, _) => a.Ok()
      case Loses(_) => true
    }

    // Covers its versions, with no failed last directory sync and nobody killed while the power stays.
    ghost predicate Steady() {
      match this
      case Commits(a, meanwhile, _) => a.Steady() && AllSteady(meanwhile)
      case Dies(a, _, power) => a.Steady() && power.Some?
      case Loses(_) => true
    }
  }

  /**
   Crash safety of one commit. Whatever moment m of the commit loses power, the state read afterwards
   is an earlier one that could already come back or exactly the after state; and if versions were firm
   and the published directory was not already fragile, all its versions are there.
   */
  lemma CrashDuringCommit(
    layout: Layout, d0: Disk, states: seq<LifecycleState>, low: nat, a: Attempt, m: Disk, left: Disk)
    returns (s: LifecycleState)
    requires layout.Ok() && ChainOk(states) && a.plan.after.WellFormed()
    requires layout.Reflects(d0, states, low) && DuringCommit(d0, m, layout.ImageOf(a.plan.after), a.Publishes())
    requires m.LosesTo(left)
    ensures layout.Load(left.state) == Result.Ok(s)
    ensures s == a.plan.after || exists i :: low <= i < |states| && s == states[i]
    ensures Careful(d0, states, a) ==> Slots(s) <= left.slots
  {
    hide LifecycleState.WellFormed, EncodeState, DecodeState;
    if left.state in d0.survivors {
      assert layout.Recalled(left.state, states, low);
      var i :| low <= i < |states| && left.state == layout.ImageOf(states[i]);
      s := states[i];
    } else {
      s := a.plan.after;
    }
    layout.LoadsBack(s);
  }

  /** The contents the disk goes through in a commit whose plan fits the current state. */
  function AppliedMoments(l: Layout, d: Disk, a: Attempt): seq<Disk> {
    var publishing := if a.publish.Some? then PublishMoments(d, a.publish.value) else [];
    var published := a.publish.None? || a.publish.value.Succeeds(d);
    var image := l.ImageOf(a.plan.after);
    publishing +
    if published && !a.plan.noOp then WriteMoments(Last(d, publishing), image, a.io, |image.bytes|) else []
  }

  /** And in any commit on a disk that holds the state s. */
  function CommitMoments(l: Layout, d: Disk, s: LifecycleState, a: Attempt): seq<Disk> {
    if a.readable && a.Matches(s) && a.Publishes() <= Slots(a.plan.after) then AppliedMoments(l, d, a) else []
  }

  /** What the disk holds when the process dies after so many steps of its commit. */
  function Killed(l: Layout, d: Disk, s: LifecycleState, a: Attempt, moment: nat): Disk {
    var moments := CommitMoments(l, d, s, a);
    if moment == 0 then d else if moment <= |moments| then moments[moment - 1] else Last(d, moments)
  }

  lemma MomentIsSafe(l: Layout, d: Disk, a: Attempt, m: Disk)
    requires d.Ok() && m in AppliedMoments(l, d, a)
    ensures DuringCommit(d, m, l.ImageOf(a.plan.after), a.Publishes()) && (m.state == d.state || !a.plan.noOp)
  {
    hide EncodeState, Renames, RootSyncs, PublishIo.TreeRenames;
  }

  datatype View = View(disk: Disk, current: LifecycleState)

  /** What an event makes of the disk; a commit is followed exactly when no other process comes in between. */
  predicate Took(l: Layout, e: Event, u: View, v: View) {
    match e
    case Commits(a, meanwhile, _) =>
      meanwhile == [] ==> v.disk == Last(u.disk, CommitMoments(l, u.disk, u.current, a))
    case Dies(a, moment, power) =>
      var at := Killed(l, u.disk, u.current, a, moment);
      v.disk == if power.None? then at else if at.LosesTo(power.value) then power.value else at.Settled()
    case Loses(left) =>
      v.disk == if u.disk.LosesTo(left) then left else u.disk.Settled()
  }

  /** A system that answers every call as asked. */
  function SoundIo(n: nat): (io: StateIo)
    ensures Renames(io, n) && RootSyncs(io.rootSyncs) && io.readsBack
  {
    var io := StateIo(true, true, [n], true, true, [true], true, true);
    assert io.rootSyncs[0];
    io
  }

  function NoOpAfter(p: Plan): Plan {
    Plan(p.operation, p.after.revision, StateDigest(p.after), StateDigest(p.after), p.after, true)
  }

  /**
   Success does not always mean durable. For every changing plan made from the first state: its write
   is left in doubt because the directory cannot be synced, a no-op plan made from what is then visible
   commits normally, and a power loss brings the first state back.
   */
  method NoOpConfirmsNothing(layout: Layout, initial: LifecycleState, p: Plan)
    returns (store: Store, first: Result<LifecycleState, CommitError>, second: Result<LifecycleState, CommitError>)
    requires layout.Ok() && initial.WellFormed()
    requires p.Ok() && p.after.WellFormed() && !p.noOp
    requires p.expectedRevision == initial.revision && p.beforeDigest == StateDigest(initial)
    ensures fresh(store) && store.Valid() && first.Err? && first.error.Doubtful?
    ensures second == Result.Ok(p.after) && store.Current() == initial != p.after
  {
    hide LifecycleState.WellFormed, EncodeState, DecodeState, Layout.Reflects;
    hide ChainOk, Slots, StateDigest, DuringCommit;
    store := new Store(layout, initial);
    var n := |layout.ImageOf(p.after).bytes|;
    first := store.Commit(Attempt(p, None, true, SoundIo(n).(rootSyncs := [])));
    second := store.Commit(Attempt(NoOpAfter(p), None, true, SoundIo(n)));
    layout.LoadsBack(initial);
    var d := store.disk;
    store.LosePower(Disk(layout.ImageOf(initial), {layout.ImageOf(initial)}, d.slots - d.fragile, {}));
  }

  /** What the answer to a commit says about the disk before and after it. */
  predicate CommitMeans(d0: Disk, d1: Disk, a: Attempt, r: Result<LifecycleState, CommitError>) {
    && d0.slots <= d1.slots <= d0.slots + a.Publishes()
    && d1.fragile <= d0.fragile + (d1.slots - d0.slots)
    // A normal return means the state is durable, except after a no-op that published nothing.
    && (r.Ok? ==> (d1.survivors == {d1.state} <==>
                   !a.plan.noOp || a.publish.Some? || d0.survivors == {d0.state}))
    && (r.Err? && r.error.Doubtful? ==>
          if r.error.confirmed then d1.survivors == {d1.state} else d0.state in d1.survivors)
    && (r.Ok? && a.plan.noOp && a.publish.None? ==> d1 == d0)
    // A version published with success is durable unless its directory was already fragile.
    && (r.Ok? || r.error.Doubtful? ==>
          a.Publishes() <= d1.slots && a.Publishes() * d1.fragile == a.Publishes() * d0.fragile)
  }

  lemma NothingDone(d: Disk, a: Attempt, error: CommitError)
    requires d.Ok() && !error.Doubtful?
    ensures CommitMeans(d, d, a, Err(error))
  {
  }

  // Every version of the after state is an old one or published by the attempt, and not into a removable directory.
  ghost predicate Careful(d0: Disk, states: seq<LifecycleState>, a: Attempt)
    requires states != []
  {
    && FirmOn(d0, states)
    && Slots(a.plan.after) <= Slots(states[|states| - 1]) + a.Publishes()
    && a.Publishes() !! d0.fragile
  }

  // A careful attempt on firm states meets the condition for staying firm.
  lemma CarefulAttempt(d0: Disk, states: seq<LifecycleState>, a: Attempt)
    requires ChainOk(states)
    ensures FirmOn(d0, states) && a.Covers() && a.Publishes() !! d0.fragile && a.Matches(states[|states| - 1]) ==>
              Careful(d0, states, a)
  {
    hide LifecycleState.WellFormed, Slots, FirmOn, StateDigest;
  }

  // A commit that ends at one of its moments continues the chain from before or with the after state.
  lemma CutShort(layout: Layout, d0: Disk, states: seq<LifecycleState>, low: nat, a: Attempt, m: Disk)
    requires d0.Ok() && ChainOk(states) && low < |states| && layout.Reflects(d0, states, low) && a.Ok()
    requires DuringCommit(d0, m, layout.ImageOf(a.plan.after), a.Publishes())
    requires m.state == d0.state || (a.Matches(states[|states| - 1]) && !a.plan.noOp)
    ensures m.Ok()
    ensures var after := if m.state == d0.state then states else states + [a.plan.after];
            && ChainOk(after) && layout.Reflects(m, after, low)
            && (Careful(d0, states, a) || (FirmOn(d0, states) && after == states) ==> FirmOn(m, after))
  {
    hide LifecycleState.WellFormed, EncodeState, Layout.Reflects, FirmOn, Slots;
    FirmUnder(d0, m, states);
    if m.state == d0.state {
      layout.ReflectsKept(d0, m, states, low);
    } else {
      layout.ReflectsGrows(d0, m, states, low, a.plan.after);
      FirmWithAfter(layout, d0, states, a, m);
    }
  }

  lemma FirmWithAfter(layout: Layout, d0: Disk, states: seq<LifecycleState>, a: Attempt, m: Disk)
    requires d0.Ok() && states != [] && DuringCommit(d0, m, layout.ImageOf(a.plan.after), a.Publishes())
    requires m.state != d0.state
    ensures Careful(d0, states, a) ==> FirmOn(m, states + [a.plan.after])
  {
    hide Slots, EncodeState;
    FirmUnder(d0, m, states);
    if Careful(d0, states, a) {
      var longer := states + [a.plan.after];
      assert Slots(states[|states| - 1]) <= m.slots - m.fragile;
      forall k | k in Slots(a.plan.after) ensures k in m.slots && k !in m.fragile {
        if k in a.Publishes() {
          assert k !in a.Publishes() * m.fragile;
        }
      }
      forall i | 0 <= i < |longer| ensures Slots(longer[i]) <= m.slots - m.fragile {
        assert i < |states| ==> longer[i] == states[i];
      }
    }
  }

  lemma NoMoment(d: Disk, image: Image, published: set<Slot>)
    requires d.Ok()
    ensures DuringCommit(d, d, image, published)
  {
  }

  lemma FirmKept(d0: Disk, d1: Disk, states: seq<LifecycleState>, a: Attempt, r: Result<LifecycleState, CommitError>)
    requires d0.Ok() && states != [] && CommitMeans(d0, d1, a, r)
    ensures Careful(d0, states, a) ==> FirmOn(d1, states + if Wrote(a, r) then [a.plan.after] else [])
  {
    hide Slots;
    if Careful(d0, states, a) {
      var longer := states + if Wrote(a, r) then [a.plan.after] else [];
      assert d0.slots - d0.fragile <= d1.slots - d1.fragile;
      forall i | 0 <= i < |longer| ensures Slots(longer[i]) <= d1.slots - d1.fragile {
        if i < |states| {
          assert longer[i] == states[i];
        } else {
          NewSlotsFirm(d0, d1, states, a, r);
        }
      }
    }
  }

  lemma NewSlotsFirm(
    d0: Disk, d1: Disk, states: seq<LifecycleState>, a: Attempt, r: Result<LifecycleState, CommitError>)
    requires d0.Ok() && states != [] && CommitMeans(d0, d1, a, r) && Careful(d0, states, a) && Wrote(a, r)
    ensures Slots(a.plan.after) <= d1.slots - d1.fragile
  {
    hide Slots;
    assert Slots(states[|states| - 1]) <= d0.slots - d0.fragile <= d1.slots - d1.fragile;
    forall k | k in Slots(a.plan.after) ensures k in d1.slots && k !in d1.fragile {
      if k in a.Publishes() {
        assert k !in a.Publishes() * d1.fragile;
      }
    }
  }

  /**
   Reusing a visible directory does not make it durable. For every plan whose state holds a version
   not yet published: a publication fails in its last directory sync, the retry reuses the directory and
   commits the plan normally, and after a power loss the state is there but the directory is not.
   */
  method RetriedPublishMayVanish(layout: Layout, initial: LifecycleState, p: Plan, publish: Publish)
    returns (store: Store, first: bool, second: Result<LifecycleState, CommitError>)
    requires layout.Ok() && initial.WellFormed()
    requires p.Ok() && p.after.WellFormed() && !p.noOp
    requires p.expectedRevision == initial.revision && p.beforeDigest == StateDigest(initial)
    requires publish.slot in Slots(p.after) && publish.slot !in Slots(initial)
    requires publish.Opens() && publish.io.TreeRenames() && publish.io.existingValid
    ensures fresh(store) && store.Valid() && !first && second == Result.Ok(p.after)
    ensures store.Current() == p.after && publish.slot in Slots(store.Current()) && publish.slot !in store.disk.slots
  {
    hide LifecycleState.WellFormed, EncodeState, DecodeState, Layout.Reflects;
    hide ChainOk, StateDigest, DuringCommit, DuringPublish;
    store := new Store(layout, initial);
    var n := |layout.ImageOf(p.after).bytes|;
    first := store.PublishFirst(Some(publish.(io := publish.io.(bundleSyncs := false))));
    assert publish.slot in {publish.slot} * store.disk.fragile;
    second := store.Commit(Attempt(p, Some(publish), true, SoundIo(n)));
    var d := store.disk;
    assert publish.slot in {publish.slot} * d.fragile;
    layout.ShowsLast(d, store.history, store.floor);
    layout.LoadsBack(p.after);
    store.LosePower(d.(survivors := {d.state}, slots := d.slots - d.fragile, fragile := {}));
  }

  /** Exactly when a write of n bytes succeeds, fails before the rename or is left in doubt. */
  predicate Answers(io: StateIo, n: nat, r: Result<LifecycleState, CommitError>) {
    match r
    case Ok(_) => Renames(io, n) && RootSyncs(io.rootSyncs) && io.readsBack
    case Err(Unwritten) => !Renames(io, n)
    case Err(Doubtful(visible, confirmed)) =>
      && Renames(io, n) && visible == io.readsAgain
      && confirmed == RootSyncs(io.rootSyncs) && (confirmed ==> !io.readsBack)
    case _ => false
  }

  // The attempt replaced the state file.
  predicate Wrote(a: Attempt, r: Result<LifecycleState, CommitError>) {
    !a.plan.noOp && (r.Ok? || r.error.Doubtful?)
  }

  /**
   A power loss at this moment of a commit leaves an old survivor or the new image, the latter only after its
   version.
   */
  predicate DuringCommit(d0: Disk, m: Disk, image: Image, published: set<Slot>) {
    && m.Ok()
    && d0.slots <= m.slots <= d0.slots + published
    && m.fragile <= d0.fragile + (m.slots - d0.slots)
    && (|| (m.state == d0.state && m.survivors <= d0.survivors)
        || (m.state == image && m.survivors <= d0.survivors + {image}
            && published <= m.slots && published * m.fragile <= d0.fragile))
  }
}
