/**
 The process-local classification cache: a recency-ordered table with a short life span per record,
 an entry cap and a byte cap; one shared flight per key; and clear epochs. The method boundaries are
 the points where a task may suspend. Every critical section gives its lock back before the next
 such point, so acquiring the lock never suspends; each method reports this in `suspends`.
 */
module ClassificationCache {
  import opened Wrappers

  datatype Key = Key(identity: string, ttl: real)

  datatype Record = Record(key: Key, result: string, bytes: nat)

  datatype Entry = Entry(record: Record, expiresAt: real, clearEpoch: nat)

  datatype Settings = Settings(maxEntries: nat, maxRecordBytes: nat, maxTotalBytes: nat) {
    predicate Ok() {
      maxEntries >= 1 && 1 <= maxRecordBytes <= maxTotalBytes
    }
  }

  datatype Failure = Unavailable | Conflict | BuilderFailed | WrongIdentity

  /* ---------- the table, oldest use first ---------- */

  function Sum(s: seq<Entry>): nat {
    if s == [] then 0 else s[0].record.bytes + Sum(s[1..])
  }

  predicate Fits(st: Settings, s: seq<Entry>) {
    |s| <= st.maxEntries && Sum(s) <= st.maxTotalBytes
  }

  predicate UniqueKeys(s: seq<Entry>) {
    forall i, j :: 0 <= i < j < |s| ==> s[i].record.key != s[j].record.key
  }

  function Find(s: seq<Entry>, key: Key): Option<Entry> {
    if s == [] then None
    else if s[0].record.key == key then Some(s[0])
    else Find(s[1..], key)
  }

  function Without(s: seq<Entry>, key: Key): seq<Entry> {
    if s == [] then []
    else if s[0].record.key == key then Without(s[1..], key)
    else [s[0]] + Without(s[1..], key)
  }

  /** The entries still alive at this time, in order. */
  function Live(s: seq<Entry>, now: real): seq<Entry> {
    if s == [] then []
    else if now >= s[0].expiresAt then Live(s[1..], now)
    else [s[0]] + Live(s[1..], now)
  }

  function ExpiredKeys(s: seq<Entry>, now: real): seq<Key> {
    if s == [] then []
    else if now >= s[0].expiresAt then [s[0].record.key] + ExpiredKeys(s[1..], now)
    else ExpiredKeys(s[1..], now)
  }

  /** `move_to_end` of a key that may be absent. */
  function Touched(s: seq<Entry>, key: Key): seq<Entry> {
    if Find(s, key).Some? then Without(s, key) + [Find(s, key).value] else s
  }

  /** kept is what eviction leaves of full: its longest suffix, by recency, within both caps. */
  ghost predicate LongestFit(st: Settings, full: seq<Entry>, kept: seq<Entry>) {
    && Fits(st, kept) && |kept| <= |full| && kept == full[|full| - |kept|..]
    && forall j :: 0 <= j < |full| - |kept| ==> !Fits(st, full[j..])
  }

  lemma {:induction false} FindIs(s: seq<Entry>, key: Key)
    ensures Find(s, key).Some? <==> exists i :: 0 <= i < |s| && s[i].record.key == key
    ensures Find(s, key).Some? ==> Find(s, key).value in s && Find(s, key).value.record.key == key
  {
    if s != [] {
      FindIs(s[1..], key);
      if s[0].record.key != key && exists i :: 0 <= i < |s| && s[i].record.key == key {
        var i :| 0 <= i < |s| && s[i].record.key == key;
        assert s[1..][i - 1].record.key == key;
      }
    }
  }

  lemma {:induction false} FindUnique(s: seq<Entry>, i: nat)
    requires UniqueKeys(s) && i < |s|
    ensures Find(s, s[i].record.key) == Some(s[i])
  {
    if i > 0 {
      assert s[0].record.key != s[i].record.key;
      FindUnique(s[1..], i - 1);
    }
  }

  lemma HeadIsUnique(s: seq<Entry>)
    requires UniqueKeys(s) && s != []
    ensures UniqueKeys(s[1..]) && s == [s[0]] + s[1..] && forall e :: e in s[1..] ==> e.record.key != s[0].record.key
  {
  }

  lemma {:induction false} WithoutSizes(s: seq<Entry>, key: Key)
    requires UniqueKeys(s)
    ensures Sum(Without(s, key)) == Sum(s) - (if Find(s, key).Some? then Find(s, key).value.record.bytes else 0)
    ensures |Without(s, key)| == |s| - (if Find(s, key).Some? then 1 else 0)
  {
    if s != [] {
      HeadIsUnique(s);
      hide UniqueKeys;
      WithoutSizes(s[1..], key);
      FindIs(s[1..], key);
      if s[0].record.key != key {
        assert Without(s, key)[1..] == Without(s[1..], key);
      }
    }
  }

  lemma {:induction false} WithoutIs(s: seq<Entry>, key: Key)
    requires UniqueKeys(s)
    ensures UniqueKeys(Without(s, key)) && forall e :: e in Without(s, key) <==> e in s && e.record.key != key
  {
    if s != [] {
      HeadIsUnique(s);
      WithoutIs(s[1..], key);
    }
  }

  lemma {:induction false} LiveIs(s: seq<Entry>, now: real)
    requires UniqueKeys(s)
    ensures UniqueKeys(Live(s, now)) && forall e :: e in Live(s, now) <==> e in s && now < e.expiresAt
    ensures |Live(s, now)| <= |s| && Sum(Live(s, now)) <= Sum(s)
  {
    if s != [] {
      var rest := s[1..];
      HeadIsUnique(s);
      LiveIs(rest, now);
      if now < s[0].expiresAt {
        assert Live(s, now)[1..] == Live(rest, now);
      }
    }
  }

  lemma {:induction false} SumSplits(a: seq<Entry>, b: seq<Entry>)
    ensures Sum(a + b) == Sum(a) + Sum(b)
  {
    if a == [] {
      assert a + b == b;
    } else {
      SumSplits(a[1..], b);
      assert (a + b)[1..] == a[1..] + b;
    }
  }

  lemma TouchedIs(s: seq<Entry>, key: Key)
    requires UniqueKeys(s)
    ensures UniqueKeys(Touched(s, key)) && Sum(Touched(s, key)) == Sum(s) && |Touched(s, key)| == |s|
    ensures forall e :: e in Touched(s, key) <==> e in s
    ensures Find(s, key).Some? ==> Touched(s, key)[|s| - 1] == Find(s, key).value
  {
    if Find(s, key).Some? {
      FindIs(s, key);
      WithoutIs(s, key);
      WithoutSizes(s, key);
      var e := Find(s, key).value;
      SumSplits(Without(s, key), [e]);
      forall d | d in s && d.record.key == key ensures d == e {
        var i :| 0 <= i < |s| && s[i] == d;
        FindUnique(s, i);
      }
    }
  }

  lemma {:induction false} FindWithout(s: seq<Entry>, key: Key, other: Key)
    ensures Find(Without(s, key), other) == if other == key then None else Find(s, other)
  {
    if s != [] {
      FindWithout(s[1..], key, other);
      if s[0].record.key != key {
        assert Without(s, key)[1..] == Without(s[1..], key);
      }
    }
  }

  lemma {:induction false} WithoutAbsent(s: seq<Entry>, key: Key)
    requires Find(s, key).None?
    ensures Without(s, key) == s
  {
    if s != [] {
      WithoutAbsent(s[1..], key);
    }
  }

  function WithoutAll(s: seq<Entry>, keys: seq<Key>): seq<Entry>
    decreases |keys|
  {
    if keys == [] then s else WithoutAll(Without(s, keys[0]), keys[1..])
  }

  lemma {:induction false} WithoutAllKeepsHead(s: seq<Entry>, keys: seq<Key>)
    requires s != [] && s[0].record.key !in keys
    ensures WithoutAll(s, keys) == [s[0]] + WithoutAll(s[1..], keys)
    decreases |keys|
  {
    if keys != [] {
      var r := Without(s, keys[0]);
      assert r == [s[0]] + Without(s[1..], keys[0]) && r[1..] == Without(s[1..], keys[0]);
      WithoutAllKeepsHead(r, keys[1..]);
    }
  }

  predicate Distinct(keys: seq<Key>) {
    forall i, j :: 0 <= i < j < |keys| ==> keys[i] != keys[j]
  }

  predicate AllFound(s: seq<Entry>, keys: seq<Key>) {
    forall k :: k in keys ==> Find(s, k).Some?
  }

  // The expired keys are distinct keys of the table.
  lemma {:induction false} ExpiredIs(s: seq<Entry>, now: real)
    requires UniqueKeys(s)
    ensures Distinct(ExpiredKeys(s, now)) && AllFound(s, ExpiredKeys(s, now))
  {
    if s != [] {
      var rest, key := s[1..], s[0].record.key;
      var e := ExpiredKeys(rest, now);
      ExpiredIs(rest, now);
      FindIs(rest, key);
      assert Find(rest, key).None?;
      forall k | k in e ensures k != key && Find(s, k).Some? {
        assert Find(rest, k).Some?;
      }
      assert ExpiredKeys(s, now) == if now >= s[0].expiresAt then [key] + e else e;
    }
  }

  /** Popping the expired keys one by one leaves the live entries. */
  lemma {:induction false} PoppingLeavesLive(s: seq<Entry>, now: real)
    requires UniqueKeys(s)
    ensures WithoutAll(s, ExpiredKeys(s, now)) == Live(s, now)
  {
    if s != [] {
      var rest, key := s[1..], s[0].record.key;
      PoppingLeavesLive(rest, now);
      FindIs(rest, key);
      ExpiredIs(rest, now);
      if now >= s[0].expiresAt {
        WithoutAbsent(rest, key);
        assert ExpiredKeys(s, now)[1..] == ExpiredKeys(rest, now);
      } else {
        assert Find(rest, key).None? && key !in ExpiredKeys(rest, now);
        WithoutAllKeepsHead(s, ExpiredKeys(rest, now));
      }
    }
  }

  /* ---------- flights ---------- */

  type Outcome = Result<Record, Failure>

  /** A build of one key, begun in one clear epoch, and its outcome once it has one. */
  datatype Flight = Flight(key: Key, epoch: nat, outcome: Option<Outcome>)
  {
    predicate Answers() {
      outcome.Some? && outcome.value.Ok? ==> outcome.value.value.key == key
    }
  }

  ghost predicate Sound(st: Settings, epoch: nat, s: seq<Entry>) {
    && UniqueKeys(s) && Fits(st, s)
    && forall e :: e in s ==> e.clearEpoch == epoch && e.record.bytes <= st.maxRecordBytes
  }

  /** No entry stems from a build begun before the last clear. */
  ghost predicate FreshOrigins(s: seq<Entry>, origins: map<Key, nat>, tasks: map<nat, Flight>, epoch: nat) {
    forall e :: e in s && e.record.key in origins ==> BegunIn(tasks, origins[e.record.key], e.record.key, epoch)
  }

  /** At most one unfinished flight a key, the one its waiters share; an outcome has its flight's key. */
  ghost predicate SingleFlight(
    flights: map<Key, nat>, next: nat, tasks: map<nat, Flight>, waiters: seq<nat>, epoch: nat)
  {
    && (forall key :: key in flights ==>
          flights[key] in tasks && tasks[flights[key]].key == key && tasks[flights[key]].outcome.None?)
    && (forall f :: f in tasks && tasks[f].outcome.None? ==> tasks[f].key in flights && flights[tasks[f].key] == f)
    && (forall f :: f in tasks ==> f < next && tasks[f].epoch <= epoch && tasks[f].Answers())
    && (forall w :: w in waiters ==> w in tasks)
  }

  lemma FlightStarts(
    flights: map<Key, nat>, next: nat, tasks: map<nat, Flight>, waiters: seq<nat>, epoch: nat, key: Key)
    requires SingleFlight(flights, next, tasks, waiters, epoch) && key !in flights
    ensures next !in tasks
    ensures SingleFlight(flights[key := next], next + 1, tasks[next := Flight(key, epoch, None)], waiters, epoch)
  {
  }

  lemma FlightJoined(
    flights: map<Key, nat>, next: nat, tasks: map<nat, Flight>, waiters: seq<nat>, epoch: nat, key: Key)
    requires SingleFlight(flights, next, tasks, waiters, epoch) && key in flights
    ensures flights[key] in tasks && tasks[flights[key]].key == key
    ensures SingleFlight(flights, next, tasks, waiters + [flights[key]], epoch)
  {
  }

  lemma FlightEnds(
    flights: map<Key, nat>, next: nat, tasks: map<nat, Flight>, waiters: seq<nat>, epoch: nat, f: nat, outcome: Outcome)
    requires SingleFlight(flights, next, tasks, waiters, epoch) && f in tasks && tasks[f].outcome.None?
    requires outcome.Ok? ==> outcome.value.key == tasks[f].key
    ensures tasks[f].key in flights && flights[tasks[f].key] == f
    ensures var ended := tasks[f := tasks[f].(outcome := Some(outcome))];
            SingleFlight(flights - {tasks[f].key}, next, ended, waiters, epoch)
  {
  }

  lemma OriginsStay(
    s: seq<Entry>, origins: map<Key, nat>, tasks: map<nat, Flight>, epoch: nat, f: nat, flight: Flight)
    requires FreshOrigins(s, origins, tasks, epoch)
    requires f in tasks ==> tasks[f].key == flight.key && tasks[f].epoch == flight.epoch
    ensures FreshOrigins(s, origins, tasks[f := flight], epoch)
  {
  }

  predicate BegunIn(tasks: map<nat, Flight>, f: nat, key: Key, epoch: nat) {
    f in tasks && tasks[f].key == key && tasks[f].epoch == epoch
  }

  predicate Lacks(s: seq<Entry>, key: Key) {
    forall e :: e in s ==> e.record.key != key
  }

  // Every entry of t is one of s, or the new one.
  predicate Within(t: seq<Entry>, s: seq<Entry>, entry: Entry) {
    forall e :: e in t ==> e in s || e == entry
  }

  lemma ConsultKeeps(st: Settings, epoch: nat, s: seq<Entry>, now: real, key: Key)
    requires Sound(st, epoch, s)
    ensures var live := Live(s, now);
            var current := Find(live, key);
            && UniqueKeys(live)
            && Sound(st, epoch, Touched(live, key)) && Sum(Touched(live, key)) == Sum(live)
            && (forall e :: e in Touched(live, key) ==> e in s)
            && (current.Some? ==>
                  && current.value in Touched(live, key)
                  && current.value.record.key == key && now < current.value.expiresAt)
            && (current.None? ==> Lacks(Touched(live, key), key))
  {
    var live := Live(s, now);
    LiveIs(s, now);
    FindIs(live, key);
    TouchedIs(live, key);
    if Find(live, key).None? {
      forall e | e in live ensures e.record.key != key {
        var i :| 0 <= i < |live| && live[i] == e;
      }
    }
  }

  lemma StoreKeeps(st: Settings, epoch: nat, s: seq<Entry>, entry: Entry, kept: seq<Entry>)
    requires st.Ok() && Sound(st, epoch, s) && Lacks(s, entry.record.key)
    requires entry.clearEpoch == epoch && entry.record.bytes <= st.maxRecordBytes && LongestFit(st, s + [entry], kept)
    ensures Sound(st, epoch, kept) && kept != [] && kept[|kept| - 1] == entry
    ensures Within(kept, s, entry)
  {
    var full := s + [entry];
    assert UniqueKeys(full);
    NewestStays(st, full, kept);
  }

  function OriginsWith(origins: map<Key, nat>, key: Key, origin: Option<nat>): map<Key, nat> {
    if origin.Some? then origins[key := origin.value] else origins - {key}
  }

  lemma OriginsStored(
    s: seq<Entry>, entry: Entry, kept: seq<Entry>, origins: map<Key, nat>, origin: Option<nat>,
    tasks: map<nat, Flight>, epoch: nat)
    requires FreshOrigins(s, origins, tasks, epoch) && Within(kept, s, entry)
    requires origin.Some? ==> BegunIn(tasks, origin.value, entry.record.key, epoch)
    ensures FreshOrigins(kept, OriginsWith(origins, entry.record.key, origin), tasks, epoch)
  {
    hide BegunIn;
  }

  lemma StoredWell(
    st: Settings, epoch: nat, s: seq<Entry>, trace: seq<Happening>, entry: Entry, kept: seq<Entry>,
    origins: map<Key, nat>, origin: Option<nat>, tasks: map<nat, Flight>)
    requires st.Ok() && Sound(st, epoch, s) && Lacks(s, entry.record.key)
    requires entry.clearEpoch == epoch && entry.record.bytes <= st.maxRecordBytes && LongestFit(st, s + [entry], kept)
    requires Coherent(s, trace) && FreshOrigins(s, origins, tasks, epoch)
    requires origin.Some? ==> BegunIn(tasks, origin.value, entry.record.key, epoch)
    ensures Sound(st, epoch, kept) && kept != [] && kept[|kept| - 1] == entry && |kept| <= |s| + 1
    ensures Coherent(kept, StoredIn(trace, s, entry, kept))
    ensures trace + [Stored(entry)] <= StoredIn(trace, s, entry, kept)
    ensures FreshOrigins(kept, OriginsWith(origins, entry.record.key, origin), tasks, epoch)
  {
    hide Sound, BegunIn, FreshOrigins, LongestFit, Lacks, Within, Coherent, OriginsWith;
    StoreKeeps(st, epoch, s, entry, kept);
    KeptCoheres(st, epoch, s, trace, entry, kept);
    OriginsStored(s, entry, kept, origins, origin, tasks, epoch);
  }

  lemma NewestStays(st: Settings, full: seq<Entry>, kept: seq<Entry>)
    requires st.Ok() && LongestFit(st, full, kept) && full != [] && full[|full| - 1].record.bytes <= st.maxRecordBytes
    ensures kept != [] && kept[|kept| - 1] == full[|full| - 1]
  {
    var last := full[|full| - 1..];
    assert last == [full[|full| - 1]] && last[1..] == [];
    assert Sum(last) == full[|full| - 1].record.bytes;
    assert Fits(st, last);
  }

  /* ---------- what happened to the table ---------- */

  /**
   One step in the life of the table: the clock was read, a record was stored, entries were evicted,
   everything was cleared, a record was served, or one was offered while another (or itself) was there.
   */
  datatype Happening =
    | Pruned(now: real)
    | Stored(entry: Entry)
    | Evicted(keys: set<Key>)
    | Cleared
    | Served(record: Record, now: real)
    | Offered(record: Record, first: Record, now: real)
  {
    // The entry is alive while it is served or stays.
    predicate For(e: Entry) {
      match this
      case Served(record, now) => record == e.record && now < e.expiresAt
      case Offered(record, first, now) => record.key == e.record.key && first == e.record && now < e.expiresAt
      case _ => false
    }
  }

  /** The table as a map from keys, without order or sizes. */
  ghost function Table(trace: seq<Happening>): map<Key, Entry> {
    if trace == [] then map[]
    else
      var before := Table(trace[..|trace| - 1]);
      match trace[|trace| - 1]
      case Pruned(now) => map k | k in before && now < before[k].expiresAt :: before[k]
      case Stored(entry) => before[entry.record.key := entry]
      case Evicted(keys) => before - keys
      case Cleared => map[]
      case Served(_, _) => before
      case Offered(_, _, _) => before
  }

  ghost predicate Holds(table: map<Key, Entry>, record: Record, now: real) {
    record.key in table && table[record.key].record == record && now < table[record.key].expiresAt
  }

  ghost predicate StepOk(before: map<Key, Entry>, h: Happening) {
    match h
    case Stored(entry) => entry.record.key !in before
    case Served(record, now) => Holds(before, record, now)
    case Offered(record, first, now) => record.key == first.key && Holds(before, first, now)
    case _ => true
  }

  /** Nothing is stored over a record, and what is served, or stays when another is offered, is alive. */
  ghost predicate Lawful(trace: seq<Happening>) {
    trace != [] ==>
      Lawful(trace[..|trace| - 1]) && StepOk(Table(trace[..|trace| - 1]), trace[|trace| - 1])
  }

  predicate Keeps(h: Happening, entry: Entry) {
    match h
    case Pruned(now) => now < entry.expiresAt
    case Stored(other) => other.record.key != entry.record.key
    case Evicted(keys) => entry.record.key !in keys
    case Cleared => false
    case Served(record, _) => record.key == entry.record.key ==> record == entry.record
    case Offered(_, first, _) => first.key == entry.record.key ==> first == entry.record
  }

  /** An entry is in the table exactly when it was stored and nothing since then ended its life. */
  ghost predicate Alive(trace: seq<Happening>, entry: Entry) {
    exists i :: 0 <= i < |trace| && trace[i] == Stored(entry) && forall j :: i < j < |trace| ==> Keeps(trace[j], entry)
  }

  lemma {:induction false} TableIs(trace: seq<Happening>, entry: Entry)
    requires Lawful(trace)
    ensures entry.record.key in Table(trace) && Table(trace)[entry.record.key] == entry <==> Alive(trace, entry)
    ensures forall k :: k in Table(trace) ==> Table(trace)[k].record.key == k
  {
    if trace != [] {
      var n := |trace| - 1;
      var before := trace[..n];
      TableIs(before, entry);
      assert StepOk(Table(before), trace[n]);
      hide Lawful, Alive;
      AliveOn(trace, entry);
    }
  }

  lemma AliveOn(trace: seq<Happening>, entry: Entry)
    requires trace != []
    ensures var n := |trace| - 1;
            Alive(trace, entry) <==> trace[n] == Stored(entry) || (Alive(trace[..n], entry) && Keeps(trace[n], entry))
  {
    var n := |trace| - 1;
    var before := trace[..n];
    hide Keeps;
    if Alive(before, entry) && Keeps(trace[n], entry) {
      var i :| 0 <= i < n && before[i] == Stored(entry) && forall j :: i < j < n ==> Keeps(before[j], entry);
      forall j | i < j < |trace| ensures Keeps(trace[j], entry) {
        assert j < n ==> trace[j] == before[j];
      }
      assert trace[i] == Stored(entry);
    }
    if Alive(trace, entry) && trace[n] != Stored(entry) {
      var i :| 0 <= i < |trace| && trace[i] == Stored(entry) && forall j :: i < j < |trace| ==> Keeps(trace[j], entry);
      assert before[i] == Stored(entry) && forall j :: i < j < n ==> Keeps(before[j], entry);
    }
  }

  lemma {:induction false} LawfulPrefix(trace: seq<Happening>, n: nat)
    requires Lawful(trace) && n <= |trace|
    ensures Lawful(trace[..n])
    ensures n < |trace| ==> StepOk(Table(trace[..n]), trace[n])
  {
    if n == |trace| {
      assert trace[..n] == trace;
    } else {
      var before := trace[..|trace| - 1];
      if n < |trace| - 1 {
        LawfulPrefix(before, n);
        assert before[..n] == trace[..n];
      }
    }
  }

  /**
   A record served, or found when another is offered, is the first one stored for its key since the key
   was last absent; it was stored since the last clear and has not expired.
   */
  lemma ServedIsFirst(trace: seq<Happening>, h: nat)
    requires Lawful(trace) && h < |trace| && (trace[h].Served? || trace[h].Offered?)
    ensures var record := if trace[h].Served? then trace[h].record else trace[h].first;
            exists entry :: Alive(trace[..h], entry) && entry.record == record && trace[h].now < entry.expiresAt
  {
    LawfulPrefix(trace, h);
    var record := if trace[h].Served? then trace[h].record else trace[h].first;
    TableIs(trace[..h], Table(trace[..h])[record.key]);
  }

  /** A record is stored only while no entry of its key is alive. */
  lemma StoredWhenAbsent(trace: seq<Happening>, i: nat, entry: Entry)
    requires Lawful(trace) && i < |trace| && trace[i].Stored? && trace[i].entry.record.key == entry.record.key
    ensures !Alive(trace[..i], entry)
  {
    LawfulPrefix(trace, i);
    TableIs(trace[..i], entry);
  }

  /** The recency-ordered table and the map have the same entries. */
  ghost predicate Coherent(s: seq<Entry>, trace: seq<Happening>) {
    Lawful(trace) && forall e :: e in s <==> Has(Table(trace), e)
  }

  predicate Has(table: map<Key, Entry>, e: Entry) {
    e.record.key in table && table[e.record.key] == e
  }

  lemma Extended(trace: seq<Happening>, h: Happening)
    ensures (trace + [h])[..|trace|] == trace && (trace + [h])[|trace|] == h
  {
  }

  lemma PruneCoheres(s: seq<Entry>, trace: seq<Happening>, now: real, key: Key)
    requires UniqueKeys(s) && Coherent(s, trace)
    ensures Coherent(Touched(Live(s, now), key), trace + [Pruned(now)])
  {
    LiveIs(s, now);
    TouchedIs(Live(s, now), key);
    Extended(trace, Pruned(now));
    hide UniqueKeys, Touched, Live;
  }

  lemma ServeCoheres(s: seq<Entry>, trace: seq<Happening>, e: Entry, h: Happening)
    requires Coherent(s, trace) && e in s
    requires h.For(e)
    ensures Coherent(s, trace + [h])
  {
    Extended(trace, h);
    assert Has(Table(trace), e);
  }

  function KeysOf(s: seq<Entry>): set<Key> {
    set e | e in s :: e.record.key
  }

  ghost function StoredIn(trace: seq<Happening>, s: seq<Entry>, entry: Entry, kept: seq<Entry>): seq<Happening>
    requires |kept| <= |s| + 1
  {
    trace + [Stored(entry)] + [Evicted(KeysOf((s + [entry])[..|s| + 1 - |kept|]))]
  }

  lemma StoreCoheres(s: seq<Entry>, trace: seq<Happening>, entry: Entry, n: nat)
    requires UniqueKeys(s + [entry]) && Coherent(s, trace) && Lacks(s, entry.record.key) && n <= |s| + 1
    ensures var full := s + [entry];
            Coherent(full[n..], trace + [Stored(entry)] + [Evicted(KeysOf(full[..n]))])
  {
    var full, more := s + [entry], trace + [Stored(entry)];
    Extended(trace, Stored(entry));
    Extended(more, Evicted(KeysOf(full[..n])));
    forall k | k in Table(trace) ensures k != entry.record.key {
      var e := Table(trace)[k];
      TableIs(trace, e);
      assert Has(Table(trace), e);
    }
    forall e ensures e in full[n..] <==> e in full && e.record.key !in KeysOf(full[..n]) {
      Dropped(full, n, e);
    }
  }

  lemma KeptCoheres(st: Settings, epoch: nat, s: seq<Entry>, trace: seq<Happening>, entry: Entry, kept: seq<Entry>)
    requires Sound(st, epoch, s) && Coherent(s, trace) && Lacks(s, entry.record.key)
    requires LongestFit(st, s + [entry], kept)
    ensures |kept| <= |s| + 1 && Coherent(kept, StoredIn(trace, s, entry, kept))
  {
    assert UniqueKeys(s + [entry]);
    hide Coherent;
    StoreCoheres(s, trace, entry, |s| + 1 - |kept|);
  }

  lemma Dropped(full: seq<Entry>, n: nat, e: Entry)
    requires UniqueKeys(full) && n <= |full|
    ensures e in full[n..] <==> e in full && e.record.key !in KeysOf(full[..n])
  {
  }

  datatype Answer = Hit(record: Record) | Awaits(flight: nat) | Refused

  class MemoryCache {
    const settings: Settings
    var records: seq<Entry>
    var totalBytes: int
    var flights: map<Key, nat>
    var nextFlight: nat
    var clearEpoch: nat
    var lastNow: Option<real>
    var locked: bool
    // the event loop's tasks: every flight ever started, with its arguments and its outcome
    var tasks: map<nat, Flight>
    // the flight each waiter awaits, the flight that stored each entry, and what happened to the table
    ghost var waiters: seq<nat>
    ghost var origins: map<Key, nat>
    ghost var trace: seq<Happening>

    ghost predicate TableOk()
      reads this`records, this`totalBytes, this`clearEpoch
    {
      settings.Ok() && totalBytes == Sum(records) && Sound(settings, clearEpoch, records)
    }

    ghost predicate FlightsOk()
      reads this`flights, this`nextFlight, this`tasks, this`waiters, this`clearEpoch
    {
      SingleFlight(flights, nextFlight, tasks, waiters, clearEpoch)
    }

    ghost predicate OriginsOk()
      reads this`records, this`origins, this`tasks, this`clearEpoch
    {
      FreshOrigins(records, origins, tasks, clearEpoch)
    }

    ghost predicate TraceOk()
      reads this`records, this`trace
    {
      Coherent(records, trace)
    }

    ghost predicate Valid()
      reads this
    {
      !locked && TableOk() && FlightsOk() && OriginsOk() && TraceOk()
    }

    constructor (settings: Settings)
      requires settings.Ok()
      ensures Valid() && this.settings == settings && records == [] && lastNow == None
      ensures tasks == map[] && flights == map[] && waiters == [] && clearEpoch == 0 && trace == []
    {
      this.settings := settings;
      records, totalBytes, lastNow, locked := [], 0, None, false;
      flights, nextFlight, clearEpoch := map[], 0, 0;
      tasks, waiters, origins, trace := map[], [], map[], [];
    }

    // `async with self._lock`: entering suspends exactly when somebody holds the lock.
    method Enter() returns (suspends: bool)
      modifies this`locked
      ensures suspends == old(locked) && locked
    {
      suspends := locked;
      locked := true;
    }

    method Leave()
      modifies this`locked
      ensures !locked
    {
      locked := false;
    }

    method ReadClock(now: real) returns (ok: bool)
      modifies this`lastNow
      ensures ok <==> (old(lastNow).Some? ==> old(lastNow).value <= now)
      ensures lastNow == if ok then Some(now) else old(lastNow)
    {
      ok := lastNow.None? || lastNow.value <= now;
      if ok {
        lastNow := Some(now);
      }
    }

    method Prune(now: real)
      requires UniqueKeys(records) && totalBytes == Sum(records)
      modifies this`records, this`totalBytes
      ensures records == Live(old(records), now) && totalBytes == Sum(records)
    {
      var expired := ExpiredKeys(records, now);
      ExpiredIs(records, now);
      PoppingLeavesLive(records, now);
      var i := 0;
      while i < |expired|
        invariant i <= |expired| && UniqueKeys(records) && totalBytes == Sum(records)
        invariant AllFound(records, expired[i..])
        invariant WithoutAll(records, expired[i..]) == Live(old(records), now)
      {
        assert expired[i] in expired[i..] && expired[i..][1..] == expired[i + 1..];
        var entry := Find(records, expired[i]).value;
        forall k | k in expired[i + 1..] ensures Find(Without(records, expired[i]), k).Some? {
          FindWithout(records, expired[i], k);
          assert k in expired[i..];
        }
        WithoutIs(records, expired[i]);
        WithoutSizes(records, expired[i]);
        records := Without(records, expired[i]);
        totalBytes := totalBytes - entry.record.bytes;
        i := i + 1;
      }
    }

    method Evict()
      requires settings.Ok() && totalBytes == Sum(records)
      modifies this`records, this`totalBytes
      ensures LongestFit(settings, old(records), records) && totalBytes == Sum(records)
    {
      ghost var full := records;
      while |records| > settings.maxEntries || totalBytes > settings.maxTotalBytes
        invariant |records| <= |full| && records == full[|full| - |records|..] && totalBytes == Sum(records)
        invariant forall j :: 0 <= j < |full| - |records| ==> !Fits(settings, full[j..])
        decreases |records|
      {
        assert full[|full| - |records|..] == records;
        var entry := records[0];
        records := records[1..];
        totalBytes := totalBytes - entry.record.bytes;
      }
    }

    /* ---------- lookup, publish, clear ---------- */

    // The sections' common beginning, and the entry found under the key moved to the recent end.
    method Consult(key: Key, now: real) returns (ok: bool, current: Option<Entry>)
      requires TableOk() && OriginsOk() && TraceOk()
      modifies this`records, this`totalBytes, this`lastNow, this`trace
      ensures TableOk() && OriginsOk() && TraceOk()
      ensures ok <==> (old(lastNow).Some? ==> old(lastNow).value <= now)
      ensures if ok then
                && current == Find(Live(old(records), now), key)
                && records == Touched(Live(old(records), now), key) && lastNow == Some(now)
                && trace == old(trace) + [Pruned(now)]
              else
                current == None && records == old(records) && lastNow == old(lastNow) && trace == old(trace)
      ensures forall e :: e in records ==> e in old(records)
      ensures current.Some? ==>
                current.value in records && current.value.record.key == key && now < current.value.expiresAt
      ensures ok && current.None? ==> Lacks(records, key)
    {
      ConsultKeeps(settings, clearEpoch, records, now, key);
      PruneCoheres(records, trace, now, key);
      hide Live, Find, Without, BegunIn, Lacks, Coherent;
      current := None;
      ok := ReadClock(now);
      if !ok {
        return;
      }
      Prune(now);
      current := Find(records, key);
      if current.Some? {
        records := Without(records, key) + [current.value];
      }
      trace := trace + [Pruned(now)];
    }

    // The entry found is served, or stays when another record is offered.
    ghost method Note(e: Entry, h: Happening)
      requires TraceOk() && e in records && h.For(e)
      modifies this`trace
      ensures TraceOk() && trace == old(trace) + [h]
    {
      ServeCoheres(records, trace, e, h);
      trace := trace + [h];
    }

    /** A hit is the unexpired record stored under exactly this key. */
    method Lookup(key: Key, now: real) returns (r: Result<Option<Record>, Failure>, suspends: bool)
      requires Valid()
      modifies this`records, this`totalBytes, this`lastNow, this`locked, this`trace
      ensures Valid() && !suspends
      ensures r.Ok? <==> (old(lastNow).Some? ==> old(lastNow).value <= now)
      ensures r.Err? ==>
                r.error == Unavailable && records == old(records) && lastNow == old(lastNow) && trace == old(trace)
      ensures r.Ok? ==>
                var hit := Find(Live(old(records), now), key);
                && r.value == (if hit.Some? then Some(hit.value.record) else None)
                && records == Touched(Live(old(records), now), key) && lastNow == Some(now)
                && trace == old(trace) + [Pruned(now)] + (if hit.Some? then [Served(hit.value.record, now)] else [])
      ensures forall e :: e in records ==> e in old(records)
      ensures r.Ok? && r.value.Some? ==> r.value.value.key == key && r.value.value.bytes <= settings.maxRecordBytes
      ensures r.Ok? && r.value.Some? ==> Keeping(records, r.value.value)
    {
      hide Coherent;
      suspends := Enter();
      var ok, current := Consult(key, now);
      if current.Some? {
        Note(current.value, Served(current.value.record, now));
      }
      Leave();
      r := if !ok then Err(Unavailable) else Result.Ok(if current.Some? then Some(current.value.record) else None);
    }

    /**
     The first unexpired record of a key stays: publishing again returns it or reports a conflict. A new
     record is stored at the recent end and is never the one evicted.
     */
    method Publish(record: Record, now: real, ghost origin: Option<nat>) returns (r: Outcome, suspends: bool)
      requires Valid()
      requires origin.Some? ==> BegunIn(tasks, origin.value, record.key, clearEpoch)
      modifies this`records, this`totalBytes, this`lastNow, this`locked, this`origins, this`trace
      ensures Valid() && !suspends && old(trace) <= trace
      ensures r.Ok? ==> r.value == record
      ensures record.bytes > settings.maxRecordBytes || !(old(lastNow).Some? ==> old(lastNow).value <= now) <==>
              r == Err(Unavailable)
      ensures r == Err(Unavailable) ==> records == old(records)
      ensures lastNow == if r == Err(Unavailable) then old(lastNow) else Some(now)
      ensures r != Err(Unavailable) ==>
                var live := Live(old(records), now);
                var current := Find(live, record.key);
                match current
                case Some(e) =>
                  && records == Touched(live, record.key)
                  && r == (if e.record == record then Result.Ok(record) else Err(Conflict))
                  && trace == old(trace) + [Pruned(now), Offered(record, e.record, now)]
                case None =>
                  && r.Ok? && StoredLast(records, record, now, clearEpoch)
                  && LongestFit(settings, live + [Entry(record, now + record.key.ttl, clearEpoch)], records)
    {
      hide Sound, BegunIn, FreshOrigins, LongestFit, UniqueKeys, Lacks, Coherent, MemoryCache.FlightsOk;
      if record.bytes > settings.maxRecordBytes {
        return Err(Unavailable), false;
      }
      suspends := Enter();
      var ok, current := Consult(record.key, now);
      if !ok {
        Leave();
        return Err(Unavailable), suspends;
      }
      if current.Some? {
        Note(current.value, Offered(record, current.value.record, now));
        Leave();
        return if current.value.record != record then Err(Conflict) else Result.Ok(current.value.record), suspends;
      }
      Store(record, now, origin);
      Leave();
      r := Result.Ok(record);
    }

    method Insert(entry: Entry)
      requires settings.Ok() && totalBytes == Sum(records)
      modifies this`records, this`totalBytes
      ensures LongestFit(settings, old(records) + [entry], records) && totalBytes == Sum(records)
    {
      hide LongestFit;
      SumSplits(records, [entry]);
      assert Sum([entry]) == entry.record.bytes;
      records := records + [entry];
      totalBytes := totalBytes + entry.record.bytes;
      Evict();
    }

    method Store(record: Record, now: real, ghost origin: Option<nat>)
      requires TableOk() && OriginsOk() && TraceOk() && record.bytes <= settings.maxRecordBytes
      requires Lacks(records, record.key)
      requires origin.Some? ==> BegunIn(tasks, origin.value, record.key, clearEpoch)
      modifies this`records, this`totalBytes, this`origins, this`trace
      ensures TableOk() && OriginsOk() && TraceOk() && records != []
      ensures old(trace) + [Stored(Entry(record, now + record.key.ttl, clearEpoch))] <= trace
      ensures records[|records| - 1] == Entry(record, now + record.key.ttl, clearEpoch)
      ensures LongestFit(settings, old(records) + [Entry(record, now + record.key.ttl, clearEpoch)], records)
    {
      hide Sound, BegunIn, FreshOrigins, LongestFit, UniqueKeys, Lacks, Within, Coherent, StoredIn, OriginsWith;
      var entry := Entry(record, now + record.key.ttl, clearEpoch);
      ghost var was := records;
      Insert(entry);
      StoredWell(settings, clearEpoch, was, trace, entry, records, origins, origin, tasks);
      trace := StoredIn(trace, was, entry, records);
      origins := OriginsWith(origins, record.key, origin);
    }

    method Clear() returns (suspends: bool)
      requires Valid()
      modifies this`records, this`totalBytes, this`clearEpoch, this`locked, this`trace
      ensures trace == old(trace) + [Cleared]
      ensures Valid() && !suspends && records == [] && totalBytes == 0 && clearEpoch == old(clearEpoch) + 1
    {
      suspends := Enter();
      records := [];
      totalBytes := 0;
      clearEpoch := clearEpoch + 1;
      Extended(trace, Cleared);
      trace := trace + [Cleared];
      Leave();
    }

    /* ---------- one flight a key ---------- */

    // The unfinished flight of the key, or a new one, and one more waiter for it.
    method Join(key: Key)
      requires FlightsOk() && OriginsOk()
      modifies this`flights, this`nextFlight, this`tasks, this`waiters
      ensures FlightsOk() && OriginsOk() && key in flights && flights[key] in tasks
      ensures flights == old(flights)[key := flights[key]] && waiters == old(waiters) + [flights[key]]
      ensures if key in old(flights) then tasks == old(tasks) && flights == old(flights)
              else flights[key] !in old(tasks) && tasks == old(tasks)[flights[key] := Flight(key, clearEpoch, None)]
    {
      hide FreshOrigins;
      if key !in flights {
        FlightStarts(flights, nextFlight, tasks, waiters, clearEpoch, key);
        OriginsStay(records, origins, tasks, clearEpoch, nextFlight, Flight(key, clearEpoch, None));
        tasks := tasks[nextFlight := Flight(key, clearEpoch, None)];
        flights := flights[key := nextFlight];
        nextFlight := nextFlight + 1;
      }
      FlightJoined(flights, nextFlight, tasks, waiters, clearEpoch, key);
      waiters := waiters + [flights[key]];
    }

    /**
     A miss joins the unfinished flight of its key or starts the only one. The answer stems from a build
     begun since the last clear exactly when no flight of this key was still out from before it.
     */
    method ResolveExact(key: Key, now: real) returns (r: Answer, suspends: bool)
      requires Valid()
      modifies this
      ensures Valid() && !suspends && clearEpoch == old(clearEpoch) && old(trace) <= trace
      ensures r.Hit? ==> trace == old(trace) + [Pruned(now), Served(r.record, now)]
      ensures r.Refused? <==> old(lastNow).Some? && now < old(lastNow).value
      ensures lastNow == if r.Refused? then old(lastNow) else Some(now)
      ensures !r.Refused? ==>
                var hit := Find(Live(old(records), now), key);
                && records == Touched(Live(old(records), now), key)
                && r.Hit? == hit.Some? && (hit.Some? ==> r.record == hit.value.record)
      ensures !r.Awaits? ==> tasks == old(tasks) && flights == old(flights) && waiters == old(waiters)
      ensures r.Awaits? ==>
                && waiters == old(waiters) + [r.flight] && r.flight in tasks
                && flights == old(flights)[key := r.flight]
                && (if key in old(flights) then tasks == old(tasks)
                    else r.flight !in old(tasks) && tasks == old(tasks)[r.flight := Flight(key, clearEpoch, None)])
                && (tasks[r.flight].epoch == clearEpoch <==>
                    key !in old(flights) || old(tasks[flights[key]].epoch == clearEpoch))
    {
      hide Sound, BegunIn, UniqueKeys, FreshOrigins, SingleFlight, Touched, Live, Find, Lacks, Coherent;
      suspends := Enter();
      var ok, current := Consult(key, now);
      if !ok {
        Leave();
        return Refused, suspends;
      }
      if current.Some? {
        Note(current.value, Served(current.value.record, now));
        Leave();
        return Hit(current.value.record), suspends;
      }
      Join(key);
      Leave();
      r := Awaits(flights[key]);
    }

    // A record published by this build under another epoch than the current one is taken out.
    method Withdraw(key: Key, published: Record)
      requires UniqueKeys(records) && totalBytes == Sum(records)
      modifies this`records, this`totalBytes
      ensures totalBytes == Sum(records)
      ensures records == if Withdrawn(old(records), key, published, clearEpoch)
                         then Without(old(records), key) else old(records)
    {
      var entry := Find(records, key);
      if entry.None? || entry.value.record != published {
        return;
      }
      if entry.value.clearEpoch == clearEpoch {
        return;
      }
      WithoutSizes(records, key);
      records := Without(records, key);
      totalBytes := totalBytes - entry.value.record.bytes;
    }

    /** The withdrawal after a late publication never takes anything out: every entry has the current epoch. */
    method DiscardIfOwnPublish(key: Key, published: Record) returns (suspends: bool)
      requires Valid()
      modifies this`records, this`totalBytes, this`locked
      ensures Valid() && !suspends && records == old(records) && totalBytes == old(totalBytes)
    {
      suspends := Enter();
      NothingWithdrawn(settings, records, key, published, clearEpoch);
      Withdraw(key, published);
      Leave();
    }

    // The check for a clear between the publication and here.
    method CloseWindow(key: Key, epoch: nat, published: Record) returns (suspends: bool)
      requires Valid()
      modifies this`records, this`totalBytes, this`locked
      ensures Valid() && !suspends && records == old(records) && totalBytes == old(totalBytes)
    {
      suspends := false;
      if epoch != clearEpoch {
        suspends := DiscardIfOwnPublish(key, published);
      }
    }

    // The publication of a build of the current epoch, and the second look after a conflict.
    method PublishOrReread(record: Record, publishAt: real, rereadAt: real, ghost f: nat)
      returns (r: Outcome, suspends: bool)
      requires Valid() && BegunIn(tasks, f, record.key, clearEpoch)
      modifies this`records, this`totalBytes, this`lastNow, this`locked, this`origins, this`trace
      ensures Valid() && !suspends && old(trace) <= trace
      ensures r.Ok? ==> r.value.key == record.key && Keeping(records, r.value)
      ensures if record.bytes > settings.maxRecordBytes || (old(lastNow).Some? && publishAt < old(lastNow).value) then
                r == Err(Unavailable) && records == old(records)
              else
                var current := Find(Live(old(records), publishAt), record.key);
                && r == Settled(current, record, publishAt, rereadAt)
                && (current.None? ==> StoredLast(records, record, publishAt, clearEpoch))
    {
      ghost var live := Live(records, publishAt);
      LiveIs(records, publishAt);
      FindIs(live, record.key);
      hide FreshOrigins, LongestFit, Coherent, UniqueKeys, Live, Find, Touched, Sum, BegunIn, Keeping;
      hide MemoryCache.Valid, StoredLast;
      r, suspends := Publish(record, publishAt, Some(f));
      if r == Err(Conflict) {
        var again: bool;
        r, again := Reread(record, publishAt, rereadAt, live);
        suspends := suspends || again;
      } else if r.Ok? {
        PublishedIsThere(live, records, record, publishAt, clearEpoch);
      }
    }

    method Reread(record: Record, publishAt: real, rereadAt: real, ghost live: seq<Entry>)
      returns (r: Outcome, suspends: bool)
      requires Valid() && lastNow == Some(publishAt) && UniqueKeys(live) && records == Touched(live, record.key)
      requires Find(live, record.key).Some? && Find(live, record.key).value.record != record
      modifies this`records, this`totalBytes, this`lastNow, this`locked, this`trace
      ensures Valid() && !suspends && old(trace) <= trace
      ensures r.Ok? ==> r.value.key == record.key && Keeping(records, r.value)
      ensures r == Settled(Find(live, record.key), record, publishAt, rereadAt)
    {
      RereadFinds(live, record.key, rereadAt);
      hide UniqueKeys, Live, Find, Touched, MemoryCache.Valid;
      var reread;
      reread, suspends := Lookup(record.key, rereadAt);
      r := if reread.Ok? && reread.value.Some? then Result.Ok(reread.value.value) else Err(Unavailable);
    }

    // What becomes of a build that returned a record of the right key.
    method Settle(f: nat, key: Key, epoch: nat, record: Record, publishAt: real, rereadAt: real)
      returns (r: Outcome, suspends: bool)
      requires Valid() && f in tasks && tasks[f] == Flight(key, epoch, None) && record.key == key
      modifies this`records, this`totalBytes, this`lastNow, this`locked, this`origins, this`trace
      ensures Valid() && !suspends && old(trace) <= trace
      ensures r.Ok? ==> r.value.key == key
      ensures epoch != clearEpoch ==> r == Result.Ok(record) && records == old(records) && trace == old(trace)
      ensures epoch == clearEpoch && r.Ok? ==> Keeping(records, r.value)
      ensures epoch == clearEpoch ==>
                if record.bytes > settings.maxRecordBytes || (old(lastNow).Some? && publishAt < old(lastNow).value) then
                  r == Err(Unavailable) && records == old(records)
                else
                  var current := Find(Live(old(records), publishAt), key);
                  && r == Settled(current, record, publishAt, rereadAt)
                  && (current.None? ==> StoredLast(records, record, publishAt, clearEpoch))
    {
      hide MemoryCache.Valid, Live, Find, Settled;
      if epoch != clearEpoch {
        return Result.Ok(record), false;
      }
      r, suspends := PublishOrReread(record, publishAt, rereadAt, f);
      if r.Ok? {
        var again := CloseWindow(key, epoch, r.value);
        suspends := suspends || again;
      }
    }

    /**
     From the builder's return to the end of the flight nothing suspends, so the epoch test and the
     insertion are one step: a build begun before a clear stores nothing after it. All waiters of the
     flight share the one outcome, and the next request of the key starts a new flight.
     */
    method FinishFlight(f: nat, key: Key, epoch: nat, built: Outcome, publishAt: real, rereadAt: real)
      returns (r: Outcome, suspends: bool)
      requires Valid() && f in tasks && tasks[f] == Flight(key, epoch, None)
      modifies this
      ensures Valid() && !suspends && clearEpoch == old(clearEpoch) && waiters == old(waiters)
      ensures old(trace) <= trace
      ensures tasks == old(tasks)[f := Flight(key, epoch, Some(r))] && flights == old(flights) - {key}
      ensures r.Ok? ==> r.value.key == key
      ensures epoch != clearEpoch || built.Err? ==> records == old(records) && trace == old(trace)
      ensures epoch != clearEpoch && built.Ok? && built.value.key == key ==> r == built
      ensures epoch == clearEpoch && r.Ok? ==> Keeping(records, r.value)
      ensures built.Err? ==> r == built
      ensures built.Ok? && built.value.key != key ==> r == Err(WrongIdentity) && records == old(records)
      // What a build of the current epoch comes to.
      ensures epoch == clearEpoch && built.Ok? && built.value.key == key ==>
                if built.value.bytes > settings.maxRecordBytes
                   || (old(lastNow).Some? && publishAt < old(lastNow).value) then
                  r == Err(Unavailable) && records == old(records)
                else
                  match Find(Live(old(records), publishAt), key)
                  case None =>
                    && r == built && records != []
                    && records[|records| - 1] == Entry(built.value, publishAt + key.ttl, clearEpoch)
                  case Some(e) =>
                    r == if e.record == built.value then built
                         else if publishAt <= rereadAt < e.expiresAt then Result.Ok(e.record) else Err(Unavailable)
    {
      hide Sound, UniqueKeys, LongestFit, FreshOrigins, SingleFlight, Coherent, Live, Find, Keeping;
      suspends := false;
      if built.Err? {
        r := built;
      } else if built.value.key != key {
        r := Err(WrongIdentity);
      } else {
        r, suspends := Settle(f, key, epoch, built.value, publishAt, rereadAt);
      }
      FlightEnds(flights, nextFlight, tasks, waiters, clearEpoch, f, r);
      OriginsStay(records, origins, tasks, clearEpoch, f, Flight(key, epoch, Some(r)));
      var again := Enter();
      suspends := suspends || again;
      if key in flights && flights[key] == f {
        flights := flights - {key};
      }
      Leave();
      tasks := tasks[f := Flight(key, epoch, Some(r))];
    }
  }

  /** What the tasks of the event loop do to the cache, in the order in which they get to do it. */
  datatype Event =
    | Looks(key: Key, now: real)
    | Publishes(record: Record, now: real)
    | Asks(key: Key, now: real)
    | Clears
    | Ends(flight: nat, built: Outcome, publishAt: real, rereadAt: real)

  /** The flight keeps its key and epoch, and its outcome once it has one. */
  predicate Persists(was: Flight, now: Flight) {
    now.key == was.key && now.epoch == was.epoch && (was.outcome.Some? ==> now == was)
  }

  ghost predicate AllPersist(was: map<nat, Flight>, now: map<nat, Flight>) {
    forall f :: f in was ==> f in now && Persists(was[f], now[f])
  }

  /** No key has two unfinished builds. */
  ghost predicate OneBuild(tasks: map<nat, Flight>) {
    forall f, g ::
      f in tasks && g in tasks && tasks[f].outcome.None? && tasks[g].outcome.None? && tasks[f].key == tasks[g].key
      ==> f == g
  }

  /** The outcome of a build of the current epoch, by the live entry it finds when it is published. */
  function Settled(current: Option<Entry>, record: Record, publishAt: real, rereadAt: real): Outcome {
    match current
    case None => Result.Ok(record)
    case Some(e) =>
      if e.record == record then Result.Ok(record)
      else if publishAt <= rereadAt < e.expiresAt then Result.Ok(e.record)
      else Err(Unavailable)
  }

  lemma RereadFinds(live: seq<Entry>, key: Key, later: real)
    requires UniqueKeys(live)
    ensures Find(live, key).Some? ==>
              var e := Find(live, key).value;
              Find(Live(Touched(live, key), later), key) == if later < e.expiresAt then Some(e) else None
  {
    if Find(live, key).Some? {
      var e, s := Find(live, key).value, Touched(live, key);
      FindIs(live, key);
      TouchedIs(live, key);
      LiveIs(s, later);
      FindUnique(s, |s| - 1);
      FindIs(Live(s, later), key);
      if later < e.expiresAt {
        var i :| 0 <= i < |Live(s, later)| && Live(s, later)[i] == e;
        FindUnique(Live(s, later), i);
      }
    }
  }

  // The record is the most recent entry, with its life span from now.
  predicate StoredLast(s: seq<Entry>, record: Record, now: real, epoch: nat) {
    s != [] && s[|s| - 1] == Entry(record, now + record.key.ttl, epoch)
  }

  predicate Keeping(s: seq<Entry>, record: Record) {
    exists e :: e in s && e.record == record
  }

  predicate Withdrawn(s: seq<Entry>, key: Key, published: Record, epoch: nat) {
    var entry := Find(s, key);
    entry.Some? && entry.value.record == published && entry.value.clearEpoch != epoch
  }

  lemma NothingWithdrawn(st: Settings, s: seq<Entry>, key: Key, published: Record, epoch: nat)
    requires Sound(st, epoch, s)
    ensures !Withdrawn(s, key, published, epoch)
  {
    FindIs(s, key);
  }

  lemma PublishedIsThere(live: seq<Entry>, s: seq<Entry>, record: Record, now: real, epoch: nat)
    requires UniqueKeys(live)
    requires match Find(live, record.key)
             case Some(e) => s == Touched(live, record.key) && e.record == record
             case None => StoredLast(s, record, now, epoch)
    ensures Keeping(s, record)
  {
    FindIs(live, record.key);
    TouchedIs(live, record.key);
    if Find(live, record.key).None? {
      assert s[|s| - 1] in s;
    }
  }

  /**
   Any interleaving of requests, publications from elsewhere, clears and ends of builds. At every moment
   a key has at most one unfinished build; an outcome never changes, nor does the flight a request waits
   for; and the trace grows by lawful steps, so everything served is the first record stored for its key.
   */
  method Run(cache: MemoryCache, events: seq<Event>)
    requires cache.Valid()
    modifies cache
    ensures cache.Valid() && OneBuild(cache.tasks) && Lawful(cache.trace)
    ensures AllPersist(old(cache.tasks), cache.tasks)
    ensures old(cache.waiters) <= cache.waiters && forall w :: w in cache.waiters ==> w in cache.tasks
    ensures old(cache.trace) <= cache.trace && cache.clearEpoch == old(cache.clearEpoch) + ClearsIn(events)
    ensures forall i :: 0 <= i < |events| ==> Finished(events[i], old(cache.tasks), cache.tasks)
  {
    hide MemoryCache.Valid, Persists, Lawful, OneBuild, Finished;
    var i := 0;
    PersistsItself(cache.tasks);
    while i < |events|
      invariant i <= |events| && cache.Valid() && AllPersist(old(cache.tasks), cache.tasks)
      invariant old(cache.waiters) <= cache.waiters
      invariant old(cache.trace) <= cache.trace
      invariant cache.clearEpoch == old(cache.clearEpoch) + ClearsIn(events[..i])
      invariant forall k :: 0 <= k < i ==> Finished(events[k], old(cache.tasks), cache.tasks)
    {
      ghost var was := cache.tasks;
      Handle(cache, events[i]);
      forall k | 0 <= k <= i ensures Finished(events[k], old(cache.tasks), cache.tasks) {
        StaysFinished(events[k], old(cache.tasks), was, cache.tasks);
      }
      PersistsOn(old(cache.tasks), was, cache.tasks);
      assert events[..i + 1][..i] == events[..i];
      i := i + 1;
    }
    assert events[..i] == events;
    RunIsSafe(cache);
  }

  lemma RunIsSafe(cache: MemoryCache)
    requires cache.Valid()
    ensures OneBuild(cache.tasks) && Lawful(cache.trace) && forall w :: w in cache.waiters ==> w in cache.tasks
  {
  }

  lemma PersistsItself(tasks: map<nat, Flight>)
    ensures AllPersist(tasks, tasks)
  {
  }

  lemma PersistsOn(a: map<nat, Flight>, b: map<nat, Flight>, c: map<nat, Flight>)
    requires AllPersist(a, b) && AllPersist(b, c)
    ensures AllPersist(a, c)
  {
  }

  function ClearsIn(events: seq<Event>): nat {
    if events == [] then 0
    else ClearsIn(events[..|events| - 1]) + if events[|events| - 1].Clears? then 1 else 0
  }

  // A build that is told to end has ended.
  predicate Finished(event: Event, was: map<nat, Flight>, now: map<nat, Flight>) {
    event.Ends? && event.flight in was ==> event.flight in now && now[event.flight].outcome.Some?
  }

  lemma StaysFinished(event: Event, start: map<nat, Flight>, was: map<nat, Flight>, now: map<nat, Flight>)
    requires AllPersist(start, was) && AllPersist(was, now)
    requires Finished(event, start, was) || Finished(event, was, now)
    ensures Finished(event, start, now)
  {
  }

  method Handle(cache: MemoryCache, event: Event)
    requires cache.Valid()
    modifies cache
    ensures cache.Valid() && AllPersist(old(cache.tasks), cache.tasks)
    ensures old(cache.waiters) <= cache.waiters
    ensures old(cache.trace) <= cache.trace
    ensures cache.clearEpoch == old(cache.clearEpoch) + if event.Clears? then 1 else 0
    ensures Finished(event, old(cache.tasks), cache.tasks)
  {
    hide MemoryCache.Valid, LongestFit, Touched, Live, Find, BegunIn;
    match event
    case Looks(key, now) => var _, _ := cache.Lookup(key, now);
    case Publishes(record, now) => var _, _ := cache.Publish(record, now, None);
    case Asks(key, now) => var _, _ := cache.ResolveExact(key, now);
    case Clears => var _ := cache.Clear();
    case Ends(f, built, publishAt, rereadAt) =>
      if f in cache.tasks && cache.tasks[f].outcome.None? {
        var flight := cache.tasks[f];
        var _, _ := cache.FinishFlight(f, flight.key, flight.epoch, built, publishAt, rereadAt);
      }
  }

  /**
   Clearing does not end the flights that are out: a request made after a clear may join a build begun
   before it and gets that build's record, which is then not stored.
   */
  method JoinsOlderBuild(settings: Settings, key: Key, record: Record)
    returns (cache: MemoryCache, late: Answer, outcome: Outcome)
    requires settings.Ok() && record.key == key
    ensures fresh(cache) && cache.Valid() && late.Awaits? && outcome == Result.Ok(record)
    ensures late.flight in cache.tasks && cache.tasks[late.flight].epoch < cache.clearEpoch && cache.records == []
    ensures cache.waiters == [late.flight, late.flight] && cache.tasks[late.flight].outcome == Some(outcome)
  {
    hide Sound, BegunIn, UniqueKeys, FreshOrigins, SingleFlight, LongestFit, Sum, Settings.Ok, MemoryCache.Valid;
    cache := new MemoryCache(settings);
    var first, _ := cache.ResolveExact(key, 0.0);
    var _ := cache.Clear();
    var suspends: bool;
    late, suspends := cache.ResolveExact(key, 0.0);
    outcome, suspends := cache.FinishFlight(late.flight, key, 0, Result.Ok(record), 0.0, 0.0);
  }
}
