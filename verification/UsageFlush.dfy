/**
 Recording model usage: one durable attempt for each captured record, in a database transaction whose
 outcome may stay unknown, with a spool for definite failures. What each call of the database driver
 and of the spool does is an input, including whether a commit that raised was applied.
 */
module UsageFlush {
  import opened Wrappers

  /** The classes an exception may have here; the cancellation variants are also `CancelledError`. */
  datatype Raised =
    | Cancelled | Other
    | RuntimeError | Configuration | Persistence | CommitUnknown | CommitCancellationUnknown
    | Cleanup | CancellationCleanup
  {
    predicate IsCancelled() {
      Cancelled? || CommitCancellationUnknown? || CancellationCleanup?
    }

    predicate IsCommitUnknown() {
      CommitUnknown? || CommitCancellationUnknown?
    }

    predicate IsRuntimeError() {
      !Cancelled? && !Other?
    }

    // A definite failure: neither a cancellation nor a class that speaks about a commit.
    predicate Spoolable() {
      Other? || RuntimeError? || Configuration? || Persistence?
    }
  }

  datatype CommitIo = Commits | CommitRaises(error: Raised, applied: bool)

  datatype CleanupIo = CleanupIo(rollbackFails: bool, closeFails: bool, interrupted: bool)

  /** How the driver answers during one transaction. */
  datatype TransactionIo = TransactionIo(
    factory: Option<Raised>, session: bool, isSession: bool, begin: Option<Raised>, operation: Option<Raised>,
    commit: CommitIo, cleanup: CleanupIo)
  {
    // The exception that ends the transaction before its commit, if any.
    function BodyError(): Option<Raised> {
      if begin.Some? then begin else operation
    }

    predicate ReachesCommit() {
      factory.None? && session && isSession && BodyError().None?
    }

    /** The rows are in the database after this transaction. */
    predicate Applied() {
      ReachesCommit() && (commit.Commits? || commit.applied)
    }

    // A class that speaks about the commit is raised before any commit, by the factory or the body.
    predicate Forges() {
      !ReachesCommit() && (Early().CommitUnknown? || Early().CommitCancellationUnknown? || Early().Cleanup?)
    }

    // What the factory, the session or the body raise before a commit.
    function Early(): Raised
      requires !ReachesCommit()
    {
      if factory.Some? then factory.value
      else if !session then Persistence
      else if !isSession then Configuration
      else BodyError().value
    }

    predicate CancelledBody() {
      factory.None? && session && isSession && BodyError().Some? && BodyError().value.IsCancelled()
    }

    /** A clean-up error that does not follow a commit. */
    predicate ForgesCleanup() {
      !ReachesCommit() && Early().Cleanup?
    }
  }

  datatype SpoolIo = Spools | SpoolRaises(error: Raised, applied: bool) {
    predicate Stores() {
      Spools? || applied
    }
  }

  datatype Answer = Returned(recorded: bool) | Raises(error: Raised)

  /** The records, by their capture number, in sequence. */
  function Upto(n: nat): seq<nat> {
    if n == 0 then [] else Upto(n - 1) + [n - 1]
  }

  lemma {:induction false} UptoCounts(n: nat, r: nat)
    ensures multiset(Upto(n))[r] == if r < n then 1 else 0
  {
    if n > 0 {
      UptoCounts(n - 1, r);
    }
  }

  // Every captured record is pending, in a flush, or past its one attempt.
  ghost predicate Conserved(pending: seq<nat>, inFlight: multiset<nat>, settled: multiset<nat>, captured: nat) {
    multiset(pending) + inFlight + settled == multiset(Upto(captured))
  }

  lemma CaptureConserves(pending: seq<nat>, inFlight: multiset<nat>, settled: multiset<nat>, n: nat)
    requires Conserved(pending, inFlight, settled, n)
    ensures Conserved(pending + [n], inFlight, settled, n + 1)
  {
    assert multiset(pending + [n]) == multiset(pending) + multiset{n};
    assert multiset(Upto(n + 1)) == multiset(Upto(n)) + multiset{n};
  }

  lemma TakeConserves(pending: seq<nat>, inFlight: multiset<nat>, settled: multiset<nat>, n: nat)
    requires Conserved(pending, inFlight, settled, n)
    ensures Conserved([], inFlight + multiset(pending), settled, n)
  {
  }

  lemma SettleConserves(pending: seq<nat>, inFlight: multiset<nat>, settled: multiset<nat>, n: nat, b: multiset<nat>)
    requires Conserved(pending, inFlight, settled, n) && b <= inFlight
    ensures Conserved(pending, inFlight - b, settled + b, n)
  {
    assert (inFlight - b) + (settled + b) == inFlight + settled;
    assert multiset(pending) + (inFlight - b) + (settled + b) == multiset(pending) + inFlight + settled;
  }

  // The batch went to one store whole, or to none.
  predicate Stored(
    database: multiset<nat>, spool: multiset<nat>, database1: multiset<nat>, spool1: multiset<nat>, b: multiset<nat>)
  {
    || (database1 == database && spool1 == spool)
    || (database1 == database + b && spool1 == spool)
    || (database1 == database && spool1 == spool + b)
  }

  lemma StoredOnce(
    database: multiset<nat>, spool: multiset<nat>, database1: multiset<nat>, spool1: multiset<nat>,
    settled: multiset<nat>, b: multiset<nat>)
    requires database + spool <= settled && Stored(database, spool, database1, spool1, b)
    ensures database1 + spool1 <= settled + b
  {
    assert (database + b) + spool == (database + spool) + b == database + (spool + b);
  }

  class Runtime {
    const persistent: bool
    const hasSpool: bool
    var captured: nat
    var pending: seq<nat>
    // records taken by a flush that has not ended, and by one that has
    ghost var inFlight: multiset<nat>
    ghost var settled: multiset<nat>
    // what is durable
    ghost var database: multiset<nat>
    ghost var spool: multiset<nat>

    ghost predicate Valid()
      reads this
    {
      Conserved(pending, inFlight, settled, captured) && database + spool <= settled
    }

    constructor (persistent: bool, hasSpool: bool)
      ensures Valid() && captured == 0 && pending == [] && inFlight == multiset{}
      ensures database == multiset{} && spool == multiset{}
      ensures this.persistent == persistent && this.hasSpool == hasSpool
    {
      this.persistent, this.hasSpool := persistent, hasSpool;
      captured, pending := 0, [];
      inFlight, settled, database, spool := multiset{}, multiset{}, multiset{}, multiset{};
    }

    /** No record is ever recorded twice, in the database, in the spool or in both, nor before its one attempt ended. */
    lemma AtMostOnce(r: nat)
      requires Valid()
      ensures database[r] + spool[r] <= 1
      ensures r in pending || r in inFlight || r >= captured ==> database[r] + spool[r] == 0
    {
      UptoCounts(captured, r);
      assert (database + spool)[r] <= settled[r];
      assert (multiset(pending) + inFlight + settled)[r] == multiset(pending)[r] + inFlight[r] + settled[r];
    }

    method Capture(valid: bool)
      requires Valid()
      modifies this`captured, this`pending
      ensures Valid()
      ensures captured == old(captured) + if valid then 1 else 0
      ensures pending == old(pending) + if valid then [old(captured)] else []
    {
      hide Conserved;
      if valid {
        CaptureConserves(pending, inFlight, settled, captured);
        pending := pending + [captured];
        captured := captured + 1;
      }
    }

    // `flush_usage` up to its only suspension: the batch leaves the pending list before the attempt.
    method TakeBatch() returns (batch: seq<nat>)
      requires Valid()
      modifies this`pending, this`inFlight
      ensures Valid() && batch == old(pending) && pending == []
      ensures inFlight == old(inFlight) + multiset(batch)
    {
      hide Conserved;
      TakeConserves(pending, inFlight, settled, captured);
      batch := pending;
      pending := [];
      inFlight := inFlight + multiset(batch);
    }

    method CleanupSession(io: CleanupIo, rollback: bool) returns (errors: bool, interrupted: bool)
      ensures errors == ((rollback && io.rollbackFails) || io.closeFails) && interrupted == io.interrupted
    {
      errors := false;
      if rollback && io.rollbackFails {
        errors := true;
      }
      if io.closeFails {
        errors := true;
      }
      interrupted := io.interrupted;
    }

    /**
     One transaction. A clean-up error or an unknown commit follows a commit exactly unless the factory or
     the body raised it; plain cancellation may come before a commit or after a confirmed one.
     */
    method Execute(batch: seq<nat>, io: TransactionIo) returns (error: Option<Raised>)
      modifies this`database
      ensures database == if io.Applied() then old(database) + multiset(batch) else old(database)
      ensures error.None? ==> io.Applied()
      ensures error.Some? && (error.value.Spoolable() || error.value.CancellationCleanup?) ==> !io.Applied()
      ensures error == Some(Cleanup) ==> (io.Applied() <==> !io.ForgesCleanup())
      ensures error.Some? && error.value.IsCommitUnknown() ==> (io.ReachesCommit() <==> !io.Forges())
      ensures error == Some(Cancelled) ==> (io.Applied() <==> io.ReachesCommit())
      ensures io.ForgesCleanup() ==> error == Some(Cleanup)
      ensures io.ReachesCommit() && io.commit.Commits? ==>
                error == if io.cleanup.interrupted then Some(Cancelled)
                         else if io.cleanup.closeFails then Some(Cleanup) else None
      ensures io.ReachesCommit() && io.commit.CommitRaises? ==>
                error == Some(if io.commit.error.IsCancelled() then CommitCancellationUnknown else CommitUnknown)
      ensures !io.ReachesCommit() && io.Early().Spoolable() ==> error.Some? && error.value.Spoolable()
      ensures !io.ReachesCommit() && io.Early().IsCancelled() ==> error.Some? && error.value.IsCancelled()
      ensures !io.ReachesCommit() && io.Early().CommitUnknown? ==> error == Some(CommitUnknown)
      ensures io.CancelledBody() ==>
                error == Some(if io.cleanup.rollbackFails || io.cleanup.closeFails
                              then CancellationCleanup else io.BodyError().value)
    {
      if io.factory.Some? {
        return Some(if io.factory.value.Other? then Configuration else io.factory.value);
      }
      if !io.session {
        return Some(Persistence);
      }
      if !io.isSession {
        return Some(Configuration);
      }
      var failure := io.BodyError();
      if failure.Some? && failure.value.IsCancelled() {
        var unclean, _ := CleanupSession(io.cleanup, true);
        return if unclean then Some(CancellationCleanup) else failure;
      }
      if failure.Some? {
        var _, _ := CleanupSession(io.cleanup, true);
        return if failure.value.IsRuntimeError() then failure else Some(Persistence);
      }
      if io.commit.Commits? || io.commit.applied {
        database := database + multiset(batch);
      }
      if io.commit.CommitRaises? {
        var _, _ := CleanupSession(io.cleanup, false);
        return Some(if io.commit.error.IsCancelled() then CommitCancellationUnknown else CommitUnknown);
      }
      var unclean, interrupted := CleanupSession(io.cleanup, false);
      if interrupted {
        return Some(Cancelled);
      }
      if unclean {
        return Some(Cleanup);
      }
      return None;
    }

    // `flush_usage` from its suspension on: the only attempt for this batch.
    method PersistBatch(batch: seq<nat>, io: TransactionIo, spoolIo: SpoolIo) returns (answer: Answer)
      requires Valid() && multiset(batch) <= inFlight
      modifies this
      ensures Valid() && pending == old(pending) && captured == old(captured)
      ensures inFlight == old(inFlight) - multiset(batch) && settled == old(settled) + multiset(batch)
      // At most one of the two stores receives the batch, and whole.
      ensures Stored(old(database), old(spool), database, spool, multiset(batch))
      // A true answer means recorded, exactly unless a clean-up error came before any commit.
      ensures answer == Returned(true) ==>
                if io.ForgesCleanup() then database == old(database) && spool == old(spool)
                else database == old(database) + multiset(batch) || spool == old(spool) + multiset(batch)
      // The answer and the stores, by what the driver and the spool did.
      ensures batch == [] || !persistent ==>
                answer == Returned(false) && database == old(database) && spool == old(spool)
      ensures persistent && batch != [] && io.ReachesCommit() ==>
                && spool == old(spool)
                && answer == match io.commit
                             case Commits => (if io.cleanup.interrupted then Raises(Cancelled) else Returned(true))
                             case CommitRaises(error, _) =>
                               if error.IsCancelled() then Raises(CommitCancellationUnknown) else Returned(false)
      ensures persistent && batch != [] && !io.ReachesCommit() && io.Early().Spoolable() ==>
                && database == old(database)
                && spool == (if hasSpool && spoolIo.Stores() then old(spool) + multiset(batch) else old(spool))
                && answer == if !hasSpool then Returned(false)
                             else match spoolIo
                                  case Spools => Returned(true)
                                  case SpoolRaises(error, _) =>
                                    if error.IsCancelled() then Raises(error) else Returned(false)
      ensures persistent && batch != [] && !io.ReachesCommit() && !io.Early().Spoolable() ==>
                && database == old(database) && spool == old(spool)
                && match io.Early()
                   case Cleanup => answer == Returned(true)
                   case CommitUnknown => answer == Returned(false)
                   case _ => answer.Raises? && answer.error.IsCancelled()
      ensures persistent && batch != [] && io.ForgesCleanup() ==> answer == Returned(true)
      // The spool is used only when the transaction was definitely not applied.
      ensures spool != old(spool) ==> !io.Applied()
    {
      hide Conserved;
      SettleConserves(pending, inFlight, settled, captured, multiset(batch));
      inFlight := inFlight - multiset(batch);
      ghost var before := settled;
      settled := settled + multiset(batch);
      answer := Attempt(batch, io, spoolIo);
      StoredOnce(old(database), old(spool), database, spool, before, multiset(batch));
    }

    // `persist_usage`.
    method Attempt(batch: seq<nat>, io: TransactionIo, spoolIo: SpoolIo) returns (answer: Answer)
      modifies this`database, this`spool
      ensures Stored(old(database), old(spool), database, spool, multiset(batch))
      ensures answer == Returned(true) ==>
                if io.ForgesCleanup() then database == old(database) && spool == old(spool)
                else database == old(database) + multiset(batch) || spool == old(spool) + multiset(batch)
      // The answer and the stores, by what the driver and the spool did.
      ensures batch == [] || !persistent ==>
                answer == Returned(false) && database == old(database) && spool == old(spool)
      ensures persistent && batch != [] && io.ReachesCommit() ==>
                && spool == old(spool)
                && answer == match io.commit
                             case Commits => (if io.cleanup.interrupted then Raises(Cancelled) else Returned(true))
                             case CommitRaises(error, _) =>
                               if error.IsCancelled() then Raises(CommitCancellationUnknown) else Returned(false)
      ensures persistent && batch != [] && !io.ReachesCommit() && io.Early().Spoolable() ==>
                && database == old(database)
                && spool == (if hasSpool && spoolIo.Stores() then old(spool) + multiset(batch) else old(spool))
                && answer == if !hasSpool then Returned(false)
                             else match spoolIo
                                  case Spools => Returned(true)
                                  case SpoolRaises(error, _) =>
                                    if error.IsCancelled() then Raises(error) else Returned(false)
      ensures persistent && batch != [] && !io.ReachesCommit() && !io.Early().Spoolable() ==>
                && database == old(database) && spool == old(spool)
                && match io.Early()
                   case Cleanup => answer == Returned(true)
                   case CommitUnknown => answer == Returned(false)
                   case _ => answer.Raises? && answer.error.IsCancelled()
      ensures persistent && batch != [] && io.ForgesCleanup() ==> answer == Returned(true)
      ensures spool != old(spool) ==> !io.Applied()
    {
      if batch == [] || !persistent {
        return Returned(false);
      }
      var error := Execute(batch, io);
      if error.None? {
        return Returned(true);
      }
      if error.value.IsCancelled() {
        return Raises(error.value);
      }
      if error.value.Cleanup? {
        return Returned(true);
      }
      if error.value.IsCommitUnknown() {
        return Returned(false);
      }
      if !hasSpool {
        return Returned(false);
      }
      if spoolIo.Spools? || spoolIo.applied {
        spool := spool + multiset(batch);
      }
      if spoolIo.SpoolRaises? {
        return if spoolIo.error.IsCancelled() then Raises(spoolIo.error) else Returned(false);
      }
      return Returned(true);
    }

    method EndFlush(batch: seq<nat>, io: TransactionIo, spoolIo: SpoolIo)
      requires Valid() && multiset(batch) <= inFlight
      modifies this
      ensures Valid() && pending == old(pending) && captured == old(captured)
      ensures inFlight == old(inFlight) - multiset(batch) && settled == old(settled) + multiset(batch)
    {
      hide Conserved, Stored;
      var _ := PersistBatch(batch, io, spoolIo);
    }

    /**
     Any interleaving of captures, flushes that begin, and flushes that end in any order and in any way.
     */
    method Run(events: seq<Event>)
      requires Valid() && inFlight == multiset{}
      modifies this
      ensures Valid() && forall r :: database[r] + spool[r] <= 1
      // Every capture, every flush that begins and every flush that ends is counted.
      ensures captured == old(captured) + CapturesIn(events)
      ensures |pending| == After(old(|pending|), [], events).0
      ensures |inFlight| == Total(After(old(|pending|), [], events).1)
    {
      hide Conserved, Stored, CapturesIn, Total, After, Joined, Sizes;
      var batches: seq<seq<nat>> := [];
      var i := 0;
      NoEvents(|pending|);
      while i < |events|
        invariant i <= |events| && Valid() && inFlight == Joined(batches)
        invariant captured == old(captured) + CapturesIn(events[..i])
        invariant (|pending|, Sizes(batches)) == After(old(|pending|), [], events[..i])
      {
        OneMore(old(|pending|), events, i);
        SizesChange(batches, pending);
        match events[i] {
          case Captures(valid) => Capture(valid);
          case Begins =>
            var batch := TakeBatch();
            JoinedMore(batches, batch);
            batches := batches + [batch];
          case Ends(k, io, spoolIo) =>
            if k < |batches| {
              JoinedWithout(batches, k);
              SizesWithout(batches, k);
              EndFlush(batches[k], io, spoolIo);
              batches := batches[..k] + batches[k + 1..];
            }
        }
        i := i + 1;
      }
      assert events[..i] == events;
      JoinedCounts(batches);
      forall r ensures database[r] + spool[r] <= 1 {
        AtMostOnce(r);
      }
    }
  }

  const QUIET := CleanupIo(false, false, false)

  /** A clean-up error from the transaction factory: the flush answers true and nothing is recorded. */
  method FactoryForgesCleanup() returns (runtime: Runtime, answer: Answer)
    ensures fresh(runtime) && runtime.Valid() && runtime.captured == 1 && answer == Returned(true)
    ensures runtime.database == multiset{} && runtime.spool == multiset{} && runtime.pending == []
  {
    hide Conserved, Stored, Runtime.Valid;
    runtime := new Runtime(true, true);
    runtime.Capture(true);
    var batch := runtime.TakeBatch();
    var io := TransactionIo(Some(Cleanup), true, true, None, None, Commits, QUIET);
    answer := runtime.PersistBatch(batch, io, Spools);
  }

  /** The same from the body of the transaction. */
  method BodyForgesCleanup() returns (runtime: Runtime, answer: Answer)
    ensures fresh(runtime) && runtime.Valid() && runtime.captured == 1 && answer == Returned(true)
    ensures runtime.database == multiset{} && runtime.spool == multiset{} && runtime.pending == []
  {
    hide Conserved, Stored, Runtime.Valid;
    runtime := new Runtime(true, true);
    runtime.Capture(true);
    var batch := runtime.TakeBatch();
    var io := TransactionIo(None, true, true, None, Some(Cleanup), Commits, QUIET);
    answer := runtime.PersistBatch(batch, io, Spools);
  }

  /** Plain cancellation tells nothing: of two transactions that end with it one was applied and one was not. */
  method CancelledEitherWay(batch: seq<nat>)
    returns (before: Option<Raised>, after: Option<Raised>, one: Runtime, other: Runtime)
    ensures before == after == Some(Cancelled) && fresh(one) && fresh(other)
    ensures one.database == multiset{} && other.database == multiset(batch)
  {
    one := new Runtime(true, true);
    before := one.Execute(batch, TransactionIo(None, true, true, None, Some(Cancelled), Commits, QUIET));
    other := new Runtime(true, true);
    after := other.Execute(batch, TransactionIo(None, true, true, None, None, Commits, QUIET.(interrupted := true)));
  }

  datatype Event = Captures(valid: bool) | Begins | Ends(batch: nat, io: TransactionIo, spoolIo: SpoolIo)

  function CapturesIn(events: seq<Event>): nat {
    if events == [] then 0
    else CapturesIn(events[..|events| - 1]) + if events[|events| - 1] == Captures(true) then 1 else 0
  }

  /** How many records are pending after these events, and how many each flush that has not ended took. */
  function After(pending: nat, flushes: seq<nat>, events: seq<Event>): (nat, seq<nat>) {
    if events == [] then (pending, flushes)
    else
      var (p, f) := After(pending, flushes, events[..|events| - 1]);
      match events[|events| - 1]
      case Captures(valid) => (if valid then p + 1 else p, f)
      case Begins => (0, f + [p])
      case Ends(k, _, _) => (p, if k < |f| then f[..k] + f[k + 1..] else f)
  }

  lemma OneMore(pending: nat, events: seq<Event>, i: nat)
    requires i < |events|
    ensures CapturesIn(events[..i + 1]) == CapturesIn(events[..i]) + if events[i] == Captures(true) then 1 else 0
    ensures var (p, f) := After(pending, [], events[..i]);
            After(pending, [], events[..i + 1]) ==
            match events[i]
            case Captures(valid) => (if valid then p + 1 else p, f)
            case Begins => (0, f + [p])
            case Ends(k, _, _) => (p, if k < |f| then f[..k] + f[k + 1..] else f)
  {
    assert events[..i + 1][..i] == events[..i];
  }

  lemma NoEvents(pending: nat)
    ensures CapturesIn([]) == 0 && After(pending, [], []) == (pending, [])
    ensures Sizes([]) == [] && Joined([]) == multiset{}
  {
  }

  lemma JoinedMore(batches: seq<seq<nat>>, batch: seq<nat>)
    ensures Joined(batches + [batch]) == Joined(batches) + multiset(batch)
  {
    assert (batches + [batch])[..|batches|] == batches;
  }

  lemma SizesChange(batches: seq<seq<nat>>, batch: seq<nat>)
    ensures Sizes(batches + [batch]) == Sizes(batches) + [|batch|]
  {
  }

  lemma SizesWithout(batches: seq<seq<nat>>, k: nat)
    requires k < |batches|
    ensures Sizes(batches[..k] + batches[k + 1..]) == Sizes(batches)[..k] + Sizes(batches)[k + 1..]
  {
  }

  function Total(sizes: seq<nat>): nat {
    if sizes == [] then 0 else Total(sizes[..|sizes| - 1]) + sizes[|sizes| - 1]
  }

  function Sizes(batches: seq<seq<nat>>): (r: seq<nat>)
    ensures |r| == |batches| && forall i :: 0 <= i < |r| ==> r[i] == |batches[i]|
  {
    seq(|batches|, i requires 0 <= i < |batches| => |batches[i]|)
  }

  lemma {:induction false} JoinedCounts(batches: seq<seq<nat>>)
    ensures |Joined(batches)| == Total(Sizes(batches))
  {
    if batches != [] {
      JoinedCounts(batches[..|batches| - 1]);
      assert Sizes(batches)[..|batches| - 1] == Sizes(batches[..|batches| - 1]);
    }
  }

  function Joined(batches: seq<seq<nat>>): multiset<nat> {
    if batches == [] then multiset{} else Joined(batches[..|batches| - 1]) + multiset(batches[|batches| - 1])
  }

  lemma {:induction false} JoinedWithout(batches: seq<seq<nat>>, k: nat)
    requires k < |batches|
    ensures Joined(batches) == Joined(batches[..k] + batches[k + 1..]) + multiset(batches[k])
    decreases |batches|
  {
    var n := |batches| - 1;
    var rest := batches[..k] + batches[k + 1..];
    if k == n {
      assert rest == batches[..n];
    } else {
      JoinedWithout(batches[..n], k);
      assert rest[..n - 1] == batches[..n][..k] + batches[..n][k + 1..];
      assert rest[n - 1] == batches[n];
    }
  }
}
