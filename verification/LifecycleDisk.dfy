/**
 The disk under the lifecycle store: one state file and the immutable version directories. It records
 both what a read returns now and what it may return after a power loss. Each answer of a system call
 is an input.
 */
module LifecycleDisk {
  import opened Wrappers
  import opened Lifecycle
  import opened LifecycleCodec

  /* ---------- the disk ---------- */

  /** One unit of file content: a character, or the text of a value taken as one piece. */
  datatype Unit = Symbol(c: char) | Fragment(value: Json)

  type Bytes = seq<Unit>

  datatype Image = Content(bytes: Bytes) | Torn

  datatype Slot = Slot(bundleId: string, digest: string)

  datatype Disk = Disk(
    state: Image,            // the state file as it reads now
    survivors: set<Image>,   // as it may read after a power loss now
    slots: set<Slot>,        // version directories visible now, each complete
    fragile: set<Slot>)      // those of them a power loss may remove
  {
    predicate Ok() {
      state in survivors && fragile <= slots
    }

    // A directory sync makes the present entries the only possible ones.
    function RootSynced(): Disk {
      this.(survivors := {state})
    }

    function BundleSynced(bundleId: string): Disk {
      this.(fragile := set s | s in fragile && s.bundleId != bundleId)
    }

    // Renaming a file over the state file; unsynced contents may be lost separately from the name.
    function Replaced(file: Staged): Disk {
      this.(state := Content(file.bytes),
            survivors := survivors + {Content(file.bytes)} + (if file.synced then {} else {Torn}))
    }

    function Published(slot: Slot): Disk {
      this.(slots := slots + {slot}, fragile := fragile + {slot})
    }

    // What is left when everything visible turns out to be durable.
    function Settled(): Disk {
      Disk(state, {state}, slots, {})
    }

    // d is what a power loss may leave of this disk.
    predicate LosesTo(d: Disk) {
      && d.state in survivors && d.survivors == {d.state}
      && slots - fragile <= d.slots <= slots && d.fragile == {}
    }
  }

  /** A temporary file that is not yet visible under its final name. */
  datatype Staged = Staged(bytes: Bytes, synced: bool)

  // The system takes n bytes in the pieces it reports, none of them empty.
  predicate Takes(writes: seq<nat>, n: nat) {
    n == 0 || (writes != [] && writes[0] > 0 && (writes[0] >= n || Takes(writes[1..], n - writes[0])))
  }

  /** The write loop and the file sync shared by state and bundle files. */
  method WriteFile(content: Bytes, writes: seq<nat>, syncs: bool) returns (file: Option<Staged>)
    ensures file == if Takes(writes, |content|) && syncs then Some(Staged(content, true)) else None
  {
    var staged := Staged([], false);
    var view := content;
    var i := 0;
    while view != []
      invariant i <= |writes| && staged.bytes + view == content && !staged.synced
      invariant Takes(writes, |content|) == Takes(writes[i..], |view|)
      decreases |view|
    {
      if i == |writes| || writes[i] == 0 {
        return None;
      }
      var written := if writes[i] < |view| then writes[i] else |view|;
      staged := staged.(bytes := staged.bytes + view[..written]);
      view := view[written..];
      i := i + 1;
    }
    if !syncs {
      return None;
    }
    assert staged.bytes == content;
    staged := staged.(synced := true);
    return Some(staged);
  }

  /** How the system answers one write of the state file. */
  datatype StateIo = StateIo(
    readsOld: bool, creates: bool, writes: seq<nat>, syncs: bool, renames: bool,
    rootSyncs: seq<bool>, readsBack: bool, readsAgain: bool)

  datatype WriteOutcome = Written | NotWritten | Uncertain(visible: bool, confirmed: bool)

  const SYNC_ATTEMPTS := 3

  predicate RootSyncs(answers: seq<bool>) {
    || (|answers| > 0 && answers[0])
    || (|answers| > 1 && answers[1])
    || (|answers| > 2 && answers[2])
  }

  // Everything up to the rename succeeds.
  predicate Renames(io: StateIo, n: nat) {
    io.readsOld && io.creates && Takes(io.writes, n) && io.syncs && io.renames
  }

  /** What each outcome says about the disk: before d0 and after d1, writing the given bytes. */
  predicate OutcomeMeans(d0: Disk, d1: Disk, image: Image, outcome: WriteOutcome) {
    match outcome
    case NotWritten => d1 == d0
    case Written => d1 == d0.(state := image, survivors := {image})
    case Uncertain(_, confirmed) =>
      d1 == d0.(state := image, survivors := if confirmed then {image} else d0.survivors + {image})
  }

  /** A power loss at this moment of a write leaves an old survivor or the new image, never less. */
  predicate DuringWrite(d0: Disk, m: Disk, image: Image) {
    && m.slots == d0.slots && m.fragile == d0.fragile
    && (m == d0 || (m.state == image && {image} <= m.survivors <= d0.survivors + {image}))
  }

  const BUNDLE_FILES := 3

  /** How the system answers the publication of one version. */
  datatype PublishIo = PublishIo(
    sourceDigest: string, rootSyncs: bool, versionsSyncs: bool, existingValid: bool, makesTree: bool,
    files: seq<Bytes>, writes: seq<seq<nat>>, syncs: seq<bool>, copyValid: bool, treeSyncs: bool,
    renames: bool, bundleSyncs: bool, finalValid: bool)

  {
    predicate FilesCopy() {
      && |files| >= BUNDLE_FILES && |writes| >= BUNDLE_FILES && |syncs| >= BUNDLE_FILES
      && forall i :: 0 <= i < BUNDLE_FILES ==> Takes(writes[i], |files[i]|) && syncs[i]
    }

    // Everything up to the rename of a new version directory succeeds.
    predicate TreeRenames() {
      makesTree && FilesCopy() && copyValid && treeSyncs && renames
    }
  }

  datatype Publish = Publish(slot: Slot, io: PublishIo)
  {
    predicate Opens() {
      io.sourceDigest == slot.digest && io.rootSyncs && io.versionsSyncs
    }

    /** Exactly when the publication succeeds on a disk. */
    predicate Succeeds(d: Disk) {
      Opens() && if slot in d.slots then io.existingValid else io.TreeRenames() && io.bundleSyncs && io.finalValid
    }

    // The new directory is visible but the sync that would keep it has failed.
    predicate LeavesFragile(d: Disk) {
      Opens() && slot !in d.slots && io.TreeRenames() && !io.bundleSyncs
    }
  }

  /** A power loss at this moment of a publication leaves the state file as before and every firm version. */
  predicate DuringPublish(d0: Disk, m: Disk, slot: Slot) {
    && m.state == d0.state && (m.survivors == d0.survivors || m.survivors == {d0.state})
    && (m.slots == d0.slots || m.slots == d0.slots + {slot})
    && m.fragile <= d0.fragile + (m.slots - d0.slots)
  }

  /**
   A published version is visible, the state file is durable, and the entry is durable unless reused while
   fragile.
   */
  predicate PublishMeans(d0: Disk, d1: Disk, slot: Slot, ok: bool) {
    && DuringPublish(d0, d1, slot)
    && (ok ==> slot in d1.slots && d1.survivors == {d0.state} && (slot in d1.fragile <==> slot in d0.fragile))
  }

  /* ---------- every moment ---------- */

  // The last of these contents, or the one before them.
  function Last(d: Disk, moments: seq<Disk>): Disk {
    if moments == [] then d else moments[|moments| - 1]
  }

  /** The contents the disk goes through while n bytes are written to the state file. */
  function WriteMoments(d: Disk, image: Image, io: StateIo, n: nat): seq<Disk> {
    if !Renames(io, n) then []
    else
      var replaced := d.(state := image, survivors := d.survivors + {image});
      [replaced] + if RootSyncs(io.rootSyncs) then [replaced.(survivors := {image})] else []
  }

  /** And while a version is published. */
  function PublishMoments(d: Disk, p: Publish): seq<Disk> {
    if p.io.sourceDigest != p.slot.digest || !p.io.rootSyncs then []
    else
      var synced := d.(survivors := {d.state});
      [synced] +
      if !p.io.versionsSyncs || p.slot in d.slots || !p.io.TreeRenames() then []
      else
        var visible := synced.(slots := d.slots + {p.slot}, fragile := d.fragile + {p.slot});
        [visible] +
        if p.io.bundleSyncs then [visible.(fragile := set s | s in visible.fragile && s.bundleId != p.slot.bundleId)]
        else []
  }

  /* ---------- the state file's contents ---------- */

  /** The JSON text layout, of which only that parsing undoes rendering is used. */
  datatype Layout = Layout(render: Json -> Bytes, parse: Bytes -> Option<Json>) {
    ghost predicate Ok() {
      forall j :: parse(render(j)) == Some(j)
    }

    function ImageOf(s: LifecycleState): Image {
      Content(render(EncodeState(s)))
    }

    /** `_read_state_locked` on a file with this image. */
    function Load(image: Image): Result<LifecycleState, Corrupt> {
      if image.Content? && parse(image.bytes).Some? then DecodeState(parse(image.bytes).value) else Err(Corrupt)
    }

    // The file with this image holds the state: their digests agree.
    predicate Holds(image: Image, s: LifecycleState) {
      Load(image).Ok? && StateDigest(Load(image).value) == StateDigest(s)
    }

    // The file holds the last state, and a power loss brings back no state before the floor.
    ghost predicate Reflects(d: Disk, states: seq<LifecycleState>, low: nat) {
      && states != []
      && d.state == ImageOf(states[|states| - 1])
      && forall image :: image in d.survivors ==> Recalled(image, states, low)
    }

    ghost predicate Recalled(image: Image, states: seq<LifecycleState>, low: nat) {
      exists i :: low <= i < |states| && image == ImageOf(states[i])
    }

    lemma ReflectsKept(d0: Disk, d1: Disk, states: seq<LifecycleState>, low: nat)
      requires Reflects(d0, states, low) && d0.Ok()
      requires d1.state == d0.state && d1.survivors <= d0.survivors
      ensures Reflects(d1, states, low)
      ensures d1.survivors == {d1.state} ==> Reflects(d1, states, |states| - 1)
    {
      hide EncodeState;
      assert d1.survivors == {d1.state} ==> Recalled(d1.state, states, |states| - 1);
    }

    lemma ReflectsGrows(d0: Disk, d1: Disk, states: seq<LifecycleState>, low: nat, after: LifecycleState)
      requires Reflects(d0, states, low) && low < |states|
      requires d1.state == ImageOf(after) && d1.survivors <= d0.survivors + {ImageOf(after)}
      ensures Reflects(d1, states + [after], low)
      ensures d1.survivors == {d1.state} ==> Reflects(d1, states + [after], |states|)
    {
      hide EncodeState;
      var longer := states + [after];
      assert longer[|states|] == after;
      forall image | image in d1.survivors ensures Recalled(image, longer, low) {
        if image in d0.survivors {
          assert Recalled(image, states, low);
          var i :| low <= i < |states| && image == ImageOf(states[i]);
          assert longer[i] == states[i];
        }
      }
      assert d1.survivors == {d1.state} ==> Recalled(d1.state, longer, |states|);
    }

    lemma ShowsLast(d: Disk, states: seq<LifecycleState>, low: nat)
      requires Reflects(d, states, low)
      ensures states != [] && d.state == ImageOf(states[|states| - 1])
    {
    }

    lemma OnlySurvivor(d: Disk, states: seq<LifecycleState>, low: nat)
      requires d.Ok() && Reflects(d, states, low) && low == |states| - 1
      ensures d.survivors == {d.state}
    {
      hide EncodeState;
      forall image | image in d.survivors ensures image == d.state {
        assert Recalled(image, states, low);
      }
    }

    /** What was written is what is read: in particular distinct states have distinct images. */
    lemma LoadsBack(s: LifecycleState)
      requires Ok() && s.WellFormed()
      ensures Load(ImageOf(s)) == Result.Ok(s)
    {
      hide LifecycleState.WellFormed, EncodeState, DecodeState;
      StateRoundTrip(s);
      assert parse(render(EncodeState(s))) == Some(EncodeState(s));
    }
  }

  function AsFragment(j: Json): Bytes {
    [Fragment(j)]
  }

  function FromFragment(b: Bytes): Option<Json> {
    if |b| == 1 && b[0].Fragment? then Some(b[0].value) else None
  }

  /** The assumption on the layout can be met. */
  lemma LayoutExists() returns (l: Layout)
    ensures l.Ok()
  {
    l := Layout(AsFragment, FromFragment);
  }

  function Slots(s: LifecycleState): (r: set<Slot>)
    ensures forall k :: k in r <==> Find(s.versions, k.bundleId, k.digest).Some?
  {
    set b, d | b in s.versions && d in s.versions[b] :: Slot(b, d)
  }

  ghost predicate ChainOk(states: seq<LifecycleState>) {
    && states != []
    && forall i :: 0 <= i < |states| ==> states[i].WellFormed() && states[i].revision == states[0].revision + i
  }

  // Every version of every state has a directory that no power loss removes.
  ghost predicate FirmOn(d: Disk, states: seq<LifecycleState>) {
    forall i :: 0 <= i < |states| ==> Slots(states[i]) <= d.slots - d.fragile
  }

  /** Keeping the visible directories and making none of them removable keeps the states firm. */
  lemma FirmUnder(d0: Disk, d1: Disk, states: seq<LifecycleState>)
    requires d0.Ok() && d0.slots <= d1.slots && d1.fragile <= d0.fragile + (d1.slots - d0.slots)
    ensures FirmOn(d0, states) ==> FirmOn(d1, states)
  {
    hide Slots;
    assert d0.slots - d0.fragile <= d1.slots - d1.fragile;
  }
}
