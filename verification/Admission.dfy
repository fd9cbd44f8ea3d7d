/**
 The bounded admission gate. What is going on is the set of tasks between their reservation and their
 release; the controller only keeps counters. The counters are proved to agree with the tasks after
 every step of every interleaving, cancellation included. A step is what a task does between two
 suspension points; releasing is taken as uninterruptible.
 */
module Admission {
  import opened Wrappers

  type Key = string

  // A waiting task is awake when it will test its condition again, parked when it waits for a notification.
  datatype Stage = Awake | Parked | Active

  datatype Task = Task(key: Option<Key>, stage: Stage)

  type Tasks = map<nat, Task>

  datatype Limits = Limits(maxActive: int, maxPending: int, maxPerKey: Option<int>)

  function Actives(tasks: Tasks): set<nat> {
    set id | id in tasks && tasks[id].stage.Active?
  }

  function Waiters(tasks: Tasks): set<nat> {
    set id | id in tasks && !tasks[id].stage.Active?
  }

  function Holders(tasks: Tasks, key: Key): set<nat> {
    set id | id in tasks && tasks[id].key == Some(key)
  }

  function ActiveCount(tasks: Tasks): nat {
    |Actives(tasks)|
  }

  function WaitCount(tasks: Tasks): nat {
    |Waiters(tasks)|
  }

  function HeldBy(tasks: Tasks, key: Key): nat {
    |Holders(tasks, key)|
  }

  function BusyKeys(tasks: Tasks): set<Key> {
    set id | id in Actives(tasks) && tasks[id].key.Some? :: tasks[id].key.value
  }

  predicate MayActivate(l: Limits, tasks: Tasks, key: Option<Key>) {
    ActiveCount(tasks) < l.maxActive && (key.Some? ==> key.value !in BusyKeys(tasks))
  }

  predicate Admits(l: Limits, tasks: Tasks, key: Option<Key>) {
    && WaitCount(tasks) < l.maxPending
    && (key.Some? && l.maxPerKey.Some? ==> HeldBy(tasks, key.value) < l.maxPerKey.value)
  }

  /** `notify_all` */
  function Notified(tasks: Tasks): Tasks {
    map id | id in tasks :: if tasks[id].stage.Parked? then tasks[id].(stage := Awake) else tasks[id]
  }

  /** A task arrives, tests its condition, or leaves: finished when active, cancelled when waiting. */
  datatype Move = Arrive(id: nat, key: Option<Key>) | Test(id: nat) | Leave(id: nat)

  predicate Enabled(tasks: Tasks, m: Move) {
    match m
    case Arrive(id, _) => id !in tasks
    case Test(id) => id in tasks && tasks[id].stage.Awake?
    case Leave(id) => id in tasks
  }

  function Next(l: Limits, tasks: Tasks, m: Move): Tasks {
    if !Enabled(tasks, m) then tasks
    else
      match m
      case Arrive(id, key) => if Admits(l, tasks, key) then tasks[id := Task(key, Awake)] else tasks
      case Test(id) =>
        var t := tasks[id];
        tasks[id := t.(stage := if MayActivate(l, tasks, t.key) then Active else Parked)]
      case Leave(id) => Notified(tasks - {id})
  }

  function After(l: Limits, tasks: Tasks, moves: seq<Move>): Tasks
    decreases |moves|
  {
    if moves == [] then tasks else After(l, Next(l, tasks, moves[0]), moves[1..])
  }

  // A limit below zero admits as little as zero.
  function Cap(n: int): nat {
    if n < 0 then 0 else n
  }

  ghost predicate CapsOk(l: Limits, tasks: Tasks) {
    && ActiveCount(tasks) <= Cap(l.maxActive)
    && WaitCount(tasks) <= Cap(l.maxPending)
    && (l.maxPerKey.Some? ==> forall k :: HeldBy(tasks, k) <= Cap(l.maxPerKey.value))
  }

  predicate OneActive(tasks: Tasks) {
    forall a, b :: a in tasks && b in tasks && a != b && tasks[a].stage.Active? && tasks[b].stage.Active? ==>
      tasks[a].key.None? || tasks[a].key != tasks[b].key
  }

  // No lost wake-up: a parked task could not be activated now.
  predicate ParkedBlocked(l: Limits, tasks: Tasks) {
    forall id :: id in tasks && tasks[id].stage.Parked? ==> !MayActivate(l, tasks, tasks[id].key)
  }

  /** The caps, one active task a key, and no lost wake-up. */
  ghost predicate Safe(l: Limits, tasks: Tasks) {
    CapsOk(l, tasks) && OneActive(tasks) && ParkedBlocked(l, tasks)
  }

  /* ---------- how each move changes the counts ---------- */

  lemma Added(s: set<nat>, id: nat)
    ensures |s + {id}| == |s| + if id in s then 0 else 1
  {
    if id in s {
      assert s + {id} == s;
    }
  }

  lemma Removed(s: set<nat>, id: nat)
    ensures |s - {id}| == |s| - if id in s then 1 else 0
  {
    if id in s {
      assert (s - {id}) + {id} == s;
    } else {
      assert s - {id} == s;
    }
  }

  // What a task with this key adds to the count of key k.
  function Share(key: Option<Key>, k: Key): nat {
    if key == Some(k) then 1 else 0
  }

  function KeySet(key: Option<Key>): set<Key> {
    if key.Some? then {key.value} else {}
  }

  lemma BusyKeysAgree(s: Tasks, t: Tasks)
    requires Actives(s) == Actives(t) && forall id :: id in Actives(s) ==> s[id] == t[id]
    ensures BusyKeys(s) == BusyKeys(t)
  {
    forall k ensures k in BusyKeys(s) <==> k in BusyKeys(t) {
      if k in BusyKeys(s) {
        var id :| id in Actives(s) && s[id].key == Some(k);
        assert id in Actives(t) && t[id].key == Some(k);
      }
      if k in BusyKeys(t) {
        var id :| id in Actives(t) && t[id].key == Some(k);
        assert id in Actives(s) && s[id].key == Some(k);
      }
    }
  }

  lemma ArrivalSets(tasks: Tasks, id: nat, key: Option<Key>)
    requires id !in tasks
    ensures var t := tasks[id := Task(key, Awake)];
            && Actives(t) == Actives(tasks) && Waiters(t) == Waiters(tasks) + {id}
            && id !in Waiters(tasks) && id !in Actives(tasks)
  {
  }

  lemma ArrivalCounts(tasks: Tasks, id: nat, key: Option<Key>)
    requires id !in tasks
    ensures var t := tasks[id := Task(key, Awake)];
            && ActiveCount(t) == ActiveCount(tasks) && WaitCount(t) == WaitCount(tasks) + 1
            && BusyKeys(t) == BusyKeys(tasks)
  {
    ArrivalSets(tasks, id, key);
    assert forall a :: a in Actives(tasks) ==> a in tasks;
    hide BusyKeys, Actives, Waiters;
    Added(Waiters(tasks), id);
    BusyKeysAgree(tasks, tasks[id := Task(key, Awake)]);
  }

  lemma ArrivalShare(tasks: Tasks, id: nat, key: Option<Key>, k: Key)
    requires id !in tasks
    ensures HeldBy(tasks[id := Task(key, Awake)], k) == HeldBy(tasks, k) + Share(key, k)
  {
    assert Holders(tasks[id := Task(key, Awake)], k) == Holders(tasks, k) + if key == Some(k) then {id} else {};
  }

  lemma ParkCounts(tasks: Tasks, id: nat)
    requires id in tasks && !tasks[id].stage.Active?
    ensures var t := tasks[id := tasks[id].(stage := Parked)];
            ActiveCount(t) == ActiveCount(tasks) && WaitCount(t) == WaitCount(tasks) && BusyKeys(t) == BusyKeys(tasks)
  {
    hide BusyKeys;
    var t := tasks[id := tasks[id].(stage := Parked)];
    assert Actives(t) == Actives(tasks);
    assert Waiters(t) == Waiters(tasks);
    BusyKeysAgree(tasks, t);
  }

  lemma ActivateCounts(tasks: Tasks, id: nat)
    requires id in tasks && !tasks[id].stage.Active?
    ensures var t := tasks[id := tasks[id].(stage := Active)];
            && ActiveCount(t) == ActiveCount(tasks) + 1 && WaitCount(t) == WaitCount(tasks) - 1
            && BusyKeys(t) == BusyKeys(tasks) + KeySet(tasks[id].key)
  {
    var t := tasks[id := tasks[id].(stage := Active)];
    var key := tasks[id].key;
    assert Actives(t) == Actives(tasks) + {id};
    assert Waiters(t) == Waiters(tasks) - {id};
    Added(Actives(tasks), id);
    Removed(Waiters(tasks), id);
    forall k ensures k in BusyKeys(t) <==> k in BusyKeys(tasks) || key == Some(k) {
      if k in BusyKeys(tasks) {
        var a :| a in Actives(tasks) && tasks[a].key == Some(k);
        assert a in Actives(t) && t[a].key == Some(k);
      }
      if key == Some(k) {
        assert id in Actives(t) && t[id].key == Some(k);
      }
    }
  }

  lemma StageShare(tasks: Tasks, id: nat, stage: Stage, k: Key)
    requires id in tasks
    ensures HeldBy(tasks[id := tasks[id].(stage := stage)], k) == HeldBy(tasks, k)
  {
    assert Holders(tasks[id := tasks[id].(stage := stage)], k) == Holders(tasks, k);
  }

  lemma LeaveCounts(tasks: Tasks, id: nat)
    requires id in tasks && OneActive(tasks)
    ensures var t := Notified(tasks - {id});
            var active := tasks[id].stage.Active?;
            && ActiveCount(t) == ActiveCount(tasks) - (if active then 1 else 0)
            && WaitCount(t) == WaitCount(tasks) - (if active then 0 else 1)
            && BusyKeys(t) == BusyKeys(tasks) - (if active then KeySet(tasks[id].key) else {})
  {
    LeaveBusyKeys(tasks, id);
    hide BusyKeys, OneActive;
    var t := Notified(tasks - {id});
    assert Actives(t) == Actives(tasks) - {id};
    assert Waiters(t) == Waiters(tasks) - {id};
    Removed(Actives(tasks), id);
    Removed(Waiters(tasks), id);
  }

  lemma LeaveBusyKeys(tasks: Tasks, id: nat)
    requires id in tasks && OneActive(tasks)
    ensures BusyKeys(Notified(tasks - {id})) ==
            BusyKeys(tasks) - (if tasks[id].stage.Active? then KeySet(tasks[id].key) else {})
  {
    var t := Notified(tasks - {id});
    var gone := if tasks[id].stage.Active? then KeySet(tasks[id].key) else {};
    forall k ensures k in BusyKeys(t) <==> k in BusyKeys(tasks) && k !in gone {
      if k in BusyKeys(t) {
        var a :| a in Actives(t) && t[a].key == Some(k);
        assert a in Actives(tasks) && tasks[a].key == Some(k);
        assert !(tasks[id].stage.Active? && tasks[id].key == tasks[a].key);
      }
      if k in BusyKeys(tasks) && k !in gone {
        var a :| a in Actives(tasks) && tasks[a].key == Some(k);
        assert a in Actives(t) && t[a].key == Some(k);
      }
    }
  }

  lemma LeaveShare(tasks: Tasks, id: nat, k: Key)
    requires id in tasks
    ensures HeldBy(Notified(tasks - {id}), k) == HeldBy(tasks, k) - Share(tasks[id].key, k)
  {
    assert Holders(Notified(tasks - {id}), k) == Holders(tasks, k) - {id};
    Removed(Holders(tasks, k), id);
  }

  /* ---------- what every interleaving keeps ---------- */

  lemma ArriveSafe(l: Limits, tasks: Tasks, id: nat, key: Option<Key>)
    requires Safe(l, tasks) && id !in tasks && Admits(l, tasks, key)
    ensures Safe(l, tasks[id := Task(key, Awake)])
  {
    hide ActiveCount, WaitCount, HeldBy, BusyKeys;
    var t := tasks[id := Task(key, Awake)];
    ArrivalCounts(tasks, id, key);
    forall k ensures HeldBy(t, k) == HeldBy(tasks, k) + Share(key, k) {
      ArrivalShare(tasks, id, key, k);
    }
    assert CapsOk(l, t);
    assert ParkedBlocked(l, t);
  }

  lemma IdleKey(tasks: Tasks, id: nat)
    requires id in tasks && (tasks[id].key.Some? ==> tasks[id].key.value !in BusyKeys(tasks))
    ensures forall a :: a in tasks && tasks[a].stage.Active? && tasks[a].key.Some? ==> tasks[a].key != tasks[id].key
  {
    forall a | a in tasks && tasks[a].stage.Active? && tasks[a].key.Some? ensures tasks[a].key != tasks[id].key {
      assert a in Actives(tasks) && tasks[a].key.value in BusyKeys(tasks);
    }
  }

  lemma ActivateSafe(l: Limits, tasks: Tasks, id: nat)
    requires Safe(l, tasks) && id in tasks && tasks[id].stage.Awake? && MayActivate(l, tasks, tasks[id].key)
    ensures Safe(l, tasks[id := tasks[id].(stage := Active)])
  {
    hide ActiveCount, WaitCount, HeldBy, BusyKeys;
    ActivateCounts(tasks, id);
    IdleKey(tasks, id);
    var t := tasks[id := tasks[id].(stage := Active)];
    forall k ensures HeldBy(t, k) == HeldBy(tasks, k) {
      StageShare(tasks, id, Active, k);
    }
    assert CapsOk(l, t);
    assert ParkedBlocked(l, t);
  }

  lemma ParkSafe(l: Limits, tasks: Tasks, id: nat)
    requires Safe(l, tasks) && id in tasks && tasks[id].stage.Awake? && !MayActivate(l, tasks, tasks[id].key)
    ensures Safe(l, tasks[id := tasks[id].(stage := Parked)])
  {
    hide ActiveCount, WaitCount, HeldBy, BusyKeys;
    ParkCounts(tasks, id);
    var t := tasks[id := tasks[id].(stage := Parked)];
    forall k ensures HeldBy(t, k) == HeldBy(tasks, k) {
      StageShare(tasks, id, Parked, k);
    }
    assert CapsOk(l, t);
    assert ParkedBlocked(l, t);
  }

  lemma LeaveSafe(l: Limits, tasks: Tasks, id: nat)
    requires Safe(l, tasks) && id in tasks
    ensures Safe(l, Notified(tasks - {id}))
  {
    hide ActiveCount, WaitCount, HeldBy, BusyKeys;
    LeaveCounts(tasks, id);
    forall k {
      LeaveShare(tasks, id, k);
    }
  }

  lemma StepSafe(l: Limits, tasks: Tasks, m: Move)
    requires Safe(l, tasks)
    ensures Safe(l, Next(l, tasks, m))
  {
    hide Safe, MayActivate, Admits;
    if Enabled(tasks, m) {
      match m {
        case Arrive(id, key) => if Admits(l, tasks, key) { ArriveSafe(l, tasks, id, key); }
        case Test(id) =>
          if MayActivate(l, tasks, tasks[id].key) {
            ActivateSafe(l, tasks, id);
          } else {
            ParkSafe(l, tasks, id);
          }
        case Leave(id) => LeaveSafe(l, tasks, id);
      }
    }
  }

  lemma NoTasksSafe(l: Limits)
    ensures Safe(l, map[])
  {
    assert Actives(map[]) == {} && Waiters(map[]) == {};
    forall k ensures HeldBy(map[], k) == 0 {
      assert Holders(map[], k) == {};
    }
  }

  /** From an empty gate, over all interleavings of arrivals, tests, releases and cancellations. */
  lemma {:induction false} RunsSafe(l: Limits, tasks: Tasks, moves: seq<Move>)
    requires Safe(l, tasks)
    ensures Safe(l, After(l, tasks, moves))
    decreases |moves|
  {
    hide Safe;
    if moves != [] {
      StepSafe(l, tasks, moves[0]);
      RunsSafe(l, Next(l, tasks, moves[0]), moves[1..]);
    }
  }

  /* ---------- nobody is held up without need ---------- */

  /** An arrival is refused only when letting it wait would break the pending or the per-key cap. */
  lemma RefusedOnlyAtACap(l: Limits, tasks: Tasks, id: nat, key: Option<Key>)
    requires id !in tasks
    ensures var t := tasks[id := Task(key, Awake)];
            var fits := WaitCount(t) <= l.maxPending
                        && (key.Some? && l.maxPerKey.Some? ==> HeldBy(t, key.value) <= l.maxPerKey.value);
            Next(l, tasks, Arrive(id, key)) == if fits then t else tasks
  {
    ArrivalCounts(tasks, id, key);
    if key.Some? {
      ArrivalShare(tasks, id, key, key.value);
    }
    hide WaitCount, HeldBy, ActiveCount, BusyKeys;
  }

  /** A waiting task is parked only when activating it would break the active cap or the one active task of its key. */
  lemma ParkedOnlyAtACap(l: Limits, tasks: Tasks, id: nat)
    requires id in tasks && tasks[id].stage.Awake? && OneActive(tasks)
    ensures var t := tasks[id := tasks[id].(stage := Active)];
            Next(l, tasks, Test(id)) ==
            if ActiveCount(t) <= l.maxActive && OneActive(t) then t else tasks[id := tasks[id].(stage := Parked)]
  {
    ActivateCounts(tasks, id);
    var t := tasks[id := tasks[id].(stage := Active)];
    if tasks[id].key.None? || tasks[id].key.value !in BusyKeys(tasks) {
      IdleKey(tasks, id);
      assert OneActive(t);
    } else {
      var a :| a in Actives(tasks) && tasks[a].key.Some? && tasks[a].key.value == tasks[id].key.value;
      assert t[a].stage.Active? && t[a].key == t[id].key && a != id;
    }
    hide ActiveCount, BusyKeys, OneActive;
  }

  // Some waiting task would go through if it were scheduled now.
  ghost predicate CanProgress(l: Limits, tasks: Tasks) {
    exists id :: id in tasks && tasks[id].stage.Awake? && MayActivate(l, tasks, tasks[id].key)
  }

  /**
   Deadlock freedom: with someone waiting and nobody active a waiting task is awake and may activate,
   exactly when the gate admits any active task at all.
   */
  lemma DeadlockFree(l: Limits, moves: seq<Move>)
    requires var t := After(l, map[], moves); Waiters(t) != {} && Actives(t) == {}
    ensures CanProgress(l, After(l, map[], moves)) <==> l.maxActive >= 1
  {
    var t := After(l, map[], moves);
    NoTasksSafe(l);
    RunsSafe(l, map[], moves);
    assert BusyKeys(t) == {};
    var id :| id in Waiters(t);
    assert l.maxActive >= 1 ==> MayActivate(l, t, t[id].key);
  }

  /* ---------- the per-key counts ---------- */

  /** When per-key limits apply, the map holds the true count of every key in use and nothing else. */
  ghost predicate KeysAgree(counted: bool, perKey: map<Key, int>, tasks: Tasks) {
    forall k :: (k in perKey <==> counted && HeldBy(tasks, k) > 0) && (k in perKey ==> perKey[k] == HeldBy(tasks, k))
  }

  function Counted(perKey: map<Key, int>, key: Key): map<Key, int> {
    perKey[key := (if key in perKey then perKey[key] else 0) + 1]
  }

  function Uncounted(perKey: map<Key, int>, key: Key): map<Key, int>
    requires key in perKey
  {
    if perKey[key] - 1 > 0 then perKey[key := perKey[key] - 1] else perKey - {key}
  }

  lemma ArrivalKeys(counted: bool, perKey: map<Key, int>, tasks: Tasks, id: nat, key: Option<Key>)
    requires KeysAgree(counted, perKey, tasks) && id !in tasks
    ensures var after := if counted && key.Some? then Counted(perKey, key.value) else perKey;
            KeysAgree(counted, after, tasks[id := Task(key, Awake)])
  {
    hide HeldBy;
    forall k {
      ArrivalShare(tasks, id, key, k);
    }
  }

  lemma StageKeys(counted: bool, perKey: map<Key, int>, tasks: Tasks, id: nat, stage: Stage)
    requires KeysAgree(counted, perKey, tasks) && id in tasks
    ensures KeysAgree(counted, perKey, tasks[id := tasks[id].(stage := stage)])
  {
    hide HeldBy;
    forall k {
      StageShare(tasks, id, stage, k);
    }
  }

  lemma Holds(tasks: Tasks, id: nat, k: Key)
    requires id in tasks && tasks[id].key == Some(k)
    ensures HeldBy(tasks, k) > 0
  {
    assert id in Holders(tasks, k);
  }

  lemma LeaveKeys(counted: bool, perKey: map<Key, int>, tasks: Tasks, id: nat)
    requires KeysAgree(counted, perKey, tasks) && id in tasks
    ensures var key := tasks[id].key;
            && (counted && key.Some? ==> key.value in perKey)
            && var after := if counted && key.Some? then Uncounted(perKey, key.value) else perKey;
            KeysAgree(counted, after, Notified(tasks - {id}))
  {
    hide HeldBy;
    if tasks[id].key.Some? {
      Holds(tasks, id, tasks[id].key.value);
    }
    forall k {
      LeaveShare(tasks, id, k);
    }
  }

  /* ---------- the controller ---------- */

  class Controller {
    const limits: Limits
    var active: int
    var pending: int
    var perKey: map<Key, int>
    var activeKeys: set<Key>
    ghost var tasks: Tasks

    /** The counters are the true task counts. */
    ghost predicate Valid()
      reads this
    {
      && Safe(limits, tasks)
      && active == ActiveCount(tasks) && pending == WaitCount(tasks) && activeKeys == BusyKeys(tasks)
      && KeysAgree(limits.maxPerKey.Some?, perKey, tasks)
    }

    constructor (limits: Limits)
      ensures Valid() && this.limits == limits && tasks == map[]
    {
      this.limits := limits;
      active, pending, perKey, activeKeys := 0, 0, map[], {};
      tasks := map[];
      new;
      NoTasksSafe(limits);
      assert Actives(map[]) == {} && Waiters(map[]) == {} && BusyKeys(map[]) == {};
      assert forall k :: Holders(map[], k) == {};
    }

    predicate CanActivate(key: Option<Key>)
      reads this
    {
      active < limits.maxActive && (key.None? || key.value !in activeKeys)
    }

    method Reserve(key: Option<Key>, ghost id: nat) returns (admitted: bool)
      requires Valid() && id !in tasks
      modifies this
      ensures Valid() && tasks == Next(limits, old(tasks), Arrive(id, key))
      ensures admitted <==> Admits(limits, old(tasks), key)
    {
      hide Safe, ActiveCount, WaitCount, HeldBy, BusyKeys, KeysAgree;
      HolderCount(key);
      if pending >= limits.maxPending {
        return false;
      }
      ArrivalKeys(limits.maxPerKey.Some?, perKey, tasks, id, key);
      if key.Some? && limits.maxPerKey.Some? {
        var count := if key.value in perKey then perKey[key.value] else 0;
        if count >= limits.maxPerKey.value {
          return false;
        }
        perKey := perKey[key.value := count + 1];
      }
      pending := pending + 1;
      StepSafe(limits, tasks, Arrive(id, key));
      ArrivalCounts(tasks, id, key);
      tasks := Next(limits, tasks, Arrive(id, key));
      admitted := true;
    }

    lemma HolderCount(key: Option<Key>)
      requires Valid()
      ensures key.Some? && limits.maxPerKey.Some? ==>
                HeldBy(tasks, key.value) == if key.value in perKey then perKey[key.value] else 0
    {
      hide Safe, ActiveCount, WaitCount, HeldBy, BusyKeys;
    }

    // One evaluation of the wait condition, and the activation when it holds.
    method TestCondition(key: Option<Key>, ghost id: nat) returns (activated: bool)
      requires Valid() && id in tasks && tasks[id] == Task(key, Awake)
      modifies this
      ensures Valid() && tasks == Next(limits, old(tasks), Test(id))
      ensures activated <==> tasks[id].stage.Active?
    {
      hide Safe, ActiveCount, WaitCount, HeldBy, BusyKeys, KeysAgree;
      activated := CanActivate(key);
      StepSafe(limits, tasks, Test(id));
      ActivateCounts(tasks, id);
      ParkCounts(tasks, id);
      StageKeys(limits.maxPerKey.Some?, perKey, tasks, id, if activated then Active else Parked);
      if activated {
        pending := pending - 1;
        active := active + 1;
        activeKeys := activeKeys + KeySet(key);
      }
      tasks := Next(limits, tasks, Test(id));
    }

    // `_per_key.get(key, 1) - 1`, whose default is never taken.
    method DropKey(key: Option<Key>)
      requires limits.maxPerKey.Some? && key.Some? ==> key.value in perKey
      modifies this`perKey
      ensures perKey == if limits.maxPerKey.Some? && key.Some? then Uncounted(old(perKey), key.value) else old(perKey)
    {
      if key.Some? && limits.maxPerKey.Some? {
        var remaining := perKey[key.value] - 1;
        if remaining > 0 {
          perKey := perKey[key.value := remaining];
        } else {
          perKey := perKey - {key.value};
        }
      }
    }

    /** The end of a slot, finished or cancelled. */
    method Finish(key: Option<Key>, activated: bool, ghost id: nat)
      requires Valid() && id in tasks && tasks[id].key == key && tasks[id].stage.Active? == activated
      modifies this
      ensures Valid() && tasks == Next(limits, old(tasks), Leave(id))
    {
      hide Safe, ActiveCount, WaitCount, HeldBy, BusyKeys, KeysAgree;
      StepSafe(limits, tasks, Leave(id));
      SafeOneActive(limits, tasks);
      LeaveCounts(tasks, id);
      LeaveKeys(limits.maxPerKey.Some?, perKey, tasks, id);
      if activated {
        active := active - 1;
        activeKeys := activeKeys - KeySet(key);
      } else {
        pending := pending - 1;
      }
      DropKey(key);
      tasks := Next(limits, tasks, Leave(id));
    }

    /** A gate everyone has left is as it was created. */
    lemma Quiescent()
      requires Valid() && tasks == map[]
      ensures active == 0 && pending == 0 && perKey == map[] && activeKeys == {}
    {
      assert Actives(map[]) == {} && Waiters(map[]) == {} && BusyKeys(map[]) == {};
      assert forall k :: Holders(map[], k) == {};
    }
  }

  lemma SafeOneActive(l: Limits, tasks: Tasks)
    requires Safe(l, tasks)
    ensures OneActive(tasks)
  {
  }
}
