/**
 Whether a dispatched plugin call succeeded. The hooks around every outgoing API call keep counters;
 the verdict combines them. Here the counters are proved to count the calls themselves, and the verdict
 is stated about the calls.
 */
module Dispatch {
  import opened Wrappers

  datatype Effect = ReadOnly | Mutating | Unclassified

  datatype Outcome = Succeeded | Failed | Unknown

  type Output = string

  /** One finished call: its effect class, how it ended and the message it sent, if any. */
  datatype Call = Call(effect: Effect, outcome: Outcome, output: Option<Output>)

  datatype Kind =
    | Success | Failure | UnknownResult | ReadFailure | ReadSuccess
    | UnresolvedFailure | UnresolvedUnknown | MutatingSuccess

  predicate Is(k: Kind, c: Call) {
    match k
    case Success => c.outcome.Succeeded?
    case Failure => !c.outcome.Succeeded?
    case UnknownResult => c.outcome.Unknown?
    case ReadFailure => !c.outcome.Succeeded? && c.effect.ReadOnly?
    case ReadSuccess => c.outcome.Succeeded? && c.effect.ReadOnly?
    case UnresolvedFailure => !c.outcome.Succeeded? && !c.effect.ReadOnly?
    case UnresolvedUnknown => c.outcome.Unknown? && !c.effect.ReadOnly?
    case MutatingSuccess => c.outcome.Succeeded? && c.effect.Mutating?
  }

  function Count(k: Kind, calls: seq<Call>): nat {
    if calls == [] then 0 else Count(k, calls[..|calls| - 1]) + if Is(k, calls[|calls| - 1]) then 1 else 0
  }

  function Outputs(calls: seq<Call>): seq<Output> {
    if calls == [] then []
    else
      var c := calls[|calls| - 1];
      Outputs(calls[..|calls| - 1]) + if c.outcome.Succeeded? && c.output.Some? then [c.output.value] else []
  }

  predicate Occurs(k: Kind, calls: seq<Call>) {
    exists i :: 0 <= i < |calls| && Is(k, calls[i])
  }

  lemma CountMore(k: Kind, calls: seq<Call>, c: Call)
    ensures Count(k, calls + [c]) == Count(k, calls) + if Is(k, c) then 1 else 0
    ensures Outputs(calls + [c]) ==
            Outputs(calls) + if c.outcome.Succeeded? && c.output.Some? then [c.output.value] else []
  {
    assert (calls + [c])[..|calls|] == calls;
  }

  lemma AppendCounts(calls: seq<Call>, c: Call)
    ensures Outputs(calls + [c]) ==
            if c.outcome.Succeeded? && c.output.Some? then Outputs(calls) + [c.output.value] else Outputs(calls)
    ensures Count(Success, calls + [c]) == Count(Success, calls) + if c.outcome.Succeeded? then 1 else 0
    ensures Count(Failure, calls + [c]) == Count(Failure, calls) + if c.outcome.Succeeded? then 0 else 1
    ensures Count(UnknownResult, calls + [c]) == Count(UnknownResult, calls) + if c.outcome.Unknown? then 1 else 0
    ensures Count(ReadFailure, calls + [c]) ==
            Count(ReadFailure, calls) + if !c.outcome.Succeeded? && c.effect.ReadOnly? then 1 else 0
    ensures Count(UnresolvedFailure, calls + [c]) ==
            Count(UnresolvedFailure, calls) + if !c.outcome.Succeeded? && !c.effect.ReadOnly? then 1 else 0
    ensures Count(UnresolvedUnknown, calls + [c]) ==
            Count(UnresolvedUnknown, calls) + if c.outcome.Unknown? && !c.effect.ReadOnly? then 1 else 0
    ensures Count(MutatingSuccess, calls + [c]) ==
            Count(MutatingSuccess, calls) + if c.outcome.Succeeded? && c.effect.Mutating? then 1 else 0
  {
    assert (calls + [c])[..|calls|] == calls;
    assert Outputs(calls) + [] == Outputs(calls);
  }

  lemma AppendWaits(calls: seq<Call>, c: Call)
    ensures Count(ReadFailure, calls + [c]) == Count(ReadFailure, calls) + if Is(ReadFailure, c) then 1 else 0
    ensures Is(ReadFailure, c) <==> !c.outcome.Succeeded? && c.effect.ReadOnly?
    ensures Awaiting(calls + [c]) ==
            Awaiting(calls) + if Is(ReadFailure, c) then 1
                              else if c.outcome.Succeeded? && c.effect.ReadOnly? && Awaiting(calls) > 0 then -1 else 0
  {
    assert (calls + [c])[..|calls|] == calls;
  }

  lemma {:induction false} CountsSome(k: Kind, calls: seq<Call>)
    ensures Count(k, calls) > 0 <==> Occurs(k, calls)
  {
    if calls != [] {
      var n := |calls| - 1;
      CountsSome(k, calls[..n]);
      if Occurs(k, calls[..n]) {
        var i :| 0 <= i < n && Is(k, calls[..n][i]);
        assert Is(k, calls[i]);
      }
      if Occurs(k, calls) && !Is(k, calls[n]) {
        var i :| 0 <= i < |calls| && Is(k, calls[i]);
        assert Is(k, calls[..n][i]);
      }
    }
  }

  /** Every failure is a read failure or unresolved; unknown results that are not unresolved are read failures. */
  lemma {:induction false} CountsRelate(calls: seq<Call>)
    ensures Count(Failure, calls) == Count(ReadFailure, calls) + Count(UnresolvedFailure, calls)
    ensures Count(UnknownResult, calls) <= Count(ReadFailure, calls) + Count(UnresolvedUnknown, calls)
    ensures Count(UnresolvedUnknown, calls) <= Count(UnresolvedFailure, calls)
  {
    if calls != [] {
      CountsRelate(calls[..|calls| - 1]);
    }
  }

  datatype Staged = Staged(effect: Effect, output: Option<Output>)

  datatype Status =
    | FailedRun | TimedOut | AdmissionRejected | ResultUnknown | PartialSuccess
    | WithOutput | SideEffect | Empty | NotMatched

  datatype Result = Result(
    status: Status, outputs: seq<Output>, recovered: nat, unresolvedFailed: nat, unresolvedUnknown: nat)

  function Max(a: int, b: int): int {
    if a < b then b else a
  }

  /* ---------- the verdict about the calls ---------- */

  predicate HasEffect(calls: seq<Call>) {
    Outputs(calls) != [] || Occurs(MutatingSuccess, calls)
  }

  /** What the status means; a forced status is that of a run that failed, came late or was rejected. */
  function Verdict(calls: seq<Call>, matcherFailed: bool, matched: bool, forced: Option<Status>): Status {
    if forced.Some? then
      if (forced.value.FailedRun? || forced.value.TimedOut? || forced.value.ResultUnknown?) && HasEffect(calls) then
        PartialSuccess
      else if (forced.value.FailedRun? || forced.value.TimedOut?) && Occurs(UnresolvedUnknown, calls) then ResultUnknown
      else forced.value
    else if Occurs(UnresolvedFailure, calls) || matcherFailed then
      if HasEffect(calls) then PartialSuccess
      else if Occurs(UnresolvedUnknown, calls) then ResultUnknown else FailedRun
    else if Outputs(calls) != [] then WithOutput
    else if HasEffect(calls) then SideEffect
    else if Occurs(ReadFailure, calls) then FailedRun
    else if matched then Empty else NotMatched
  }

  /** A success verdict has something to show, and no failed call but read-only ones. */
  lemma SuccessIsTruthful(calls: seq<Call>, matcherFailed: bool, matched: bool)
    ensures var s := Verdict(calls, matcherFailed, matched, None);
            && (s.WithOutput? || s.SideEffect? <==>
                HasEffect(calls) && !matcherFailed &&
                forall i :: 0 <= i < |calls| && !calls[i].outcome.Succeeded? ==> calls[i].effect.ReadOnly?)
            && (s.WithOutput? ==> Outputs(calls) != [])
            && (s.SideEffect? ==>
                  exists i :: 0 <= i < |calls| && calls[i].outcome.Succeeded? && calls[i].effect.Mutating?)
  {
    if s: nat :| s < |calls| && !calls[s].outcome.Succeeded? && !calls[s].effect.ReadOnly? {
      assert Is(UnresolvedFailure, calls[s]);
    }
    if Occurs(MutatingSuccess, calls) {
      var i :| 0 <= i < |calls| && Is(MutatingSuccess, calls[i]);
    }
  }

  // What a caller can see of the calls, without counting.
  predicate Sent(calls: seq<Call>) {
    exists i :: 0 <= i < |calls| && calls[i].outcome.Succeeded? && calls[i].output.Some?
  }

  predicate Changed(calls: seq<Call>) {
    exists i :: 0 <= i < |calls| && calls[i].outcome.Succeeded? && calls[i].effect.Mutating?
  }

  predicate FailedUnread(calls: seq<Call>) {
    exists i :: 0 <= i < |calls| && !calls[i].outcome.Succeeded? && !calls[i].effect.ReadOnly?
  }

  predicate UnknownUnread(calls: seq<Call>) {
    exists i :: 0 <= i < |calls| && calls[i].outcome.Unknown? && !calls[i].effect.ReadOnly?
  }

  predicate FailedAny(calls: seq<Call>) {
    exists i :: 0 <= i < |calls| && !calls[i].outcome.Succeeded?
  }

  lemma {:induction false} OutputsAreSent(calls: seq<Call>)
    ensures Outputs(calls) != [] <==> Sent(calls)
  {
    if calls != [] {
      var n := |calls| - 1;
      OutputsAreSent(calls[..n]);
      if Sent(calls[..n]) {
        var i :| 0 <= i < n && calls[..n][i].outcome.Succeeded? && calls[..n][i].output.Some?;
        assert calls[i].outcome.Succeeded? && calls[i].output.Some?;
      }
      if Sent(calls) {
        var i :| 0 <= i < |calls| && calls[i].outcome.Succeeded? && calls[i].output.Some?;
        if i < n {
          assert calls[..n][i] == calls[i];
        }
      }
    }
  }

  /** Each status of a run that was not forced into one, by the calls. */
  lemma EveryStatus(calls: seq<Call>, matcherFailed: bool, matched: bool)
    ensures var s := Verdict(calls, matcherFailed, matched, None);
            var bad := matcherFailed || FailedUnread(calls);
            var effect := Sent(calls) || Changed(calls);
            && (s.PartialSuccess? <==> bad && effect)
            && (s.ResultUnknown? <==> bad && !effect && UnknownUnread(calls))
            && (s.FailedRun? <==> !effect && (if bad then !UnknownUnread(calls) else FailedAny(calls)))
            && (s.WithOutput? <==> !bad && Sent(calls))
            && (s.SideEffect? <==> !bad && !Sent(calls) && Changed(calls))
            && (s.Empty? <==> !bad && !effect && !FailedAny(calls) && matched)
            && (s.NotMatched? <==> !bad && !effect && !FailedAny(calls) && !matched)
  {
    OutputsAreSent(calls);
    OccursMeans(calls);
    hide Outputs, Occurs, Sent, Changed, FailedUnread, UnknownUnread, FailedAny;
  }

  lemma OccursMeans(calls: seq<Call>)
    ensures Occurs(MutatingSuccess, calls) <==> Changed(calls)
    ensures Occurs(UnresolvedFailure, calls) <==> FailedUnread(calls)
    ensures Occurs(UnresolvedUnknown, calls) <==> UnknownUnread(calls)
    ensures FailedAny(calls) <==> FailedUnread(calls) || Occurs(ReadFailure, calls)
    ensures UnknownUnread(calls) ==> FailedUnread(calls)
  {
    if Changed(calls) {
      var i :| 0 <= i < |calls| && calls[i].outcome.Succeeded? && calls[i].effect.Mutating?;
      assert Is(MutatingSuccess, calls[i]);
    }
    if FailedUnread(calls) {
      var i :| 0 <= i < |calls| && !calls[i].outcome.Succeeded? && !calls[i].effect.ReadOnly?;
      assert Is(UnresolvedFailure, calls[i]);
    }
    if UnknownUnread(calls) {
      var i :| 0 <= i < |calls| && calls[i].outcome.Unknown? && !calls[i].effect.ReadOnly?;
      assert Is(UnresolvedUnknown, calls[i]) && !calls[i].outcome.Succeeded?;
    }
    if FailedAny(calls) {
      var i :| 0 <= i < |calls| && !calls[i].outcome.Succeeded?;
      assert Is(ReadFailure, calls[i]) || (!calls[i].outcome.Succeeded? && !calls[i].effect.ReadOnly?);
    }
  }

  /** A forced status is changed only where the calls had an effect, or hide an unknown result. */
  lemma ForcedStatus(calls: seq<Call>, matcherFailed: bool, matched: bool, forced: Status)
    ensures var s := Verdict(calls, matcherFailed, matched, Some(forced));
            var effect := Sent(calls) || Changed(calls);
            if effect && (forced.FailedRun? || forced.TimedOut? || forced.ResultUnknown?) then s == PartialSuccess
            else if UnknownUnread(calls) && (forced.FailedRun? || forced.TimedOut?) then s == ResultUnknown
            else s == forced
  {
    OutputsAreSent(calls);
    OccursMeans(calls);
    hide Outputs, Occurs, Sent, Changed, FailedUnread, UnknownUnread, FailedAny;
  }

  /** The verdict does not ask for recovery: beside an effect any number of reads may stay failed and unrecovered. */
  lemma {:induction false} UnrecoveredReadsChangeNothing(
    calls: seq<Call>, lost: seq<Call>, matcherFailed: bool, matched: bool, forced: Option<Status>)
    requires HasEffect(calls) && forall i :: 0 <= i < |lost| ==> Is(ReadFailure, lost[i])
    ensures Verdict(calls + lost, matcherFailed, matched, forced) == Verdict(calls, matcherFailed, matched, forced)
    ensures HasEffect(calls + lost) && Awaiting(calls + lost) == Awaiting(calls) + |lost|
    decreases |lost|
  {
    if lost == [] {
      assert calls + lost == calls;
    } else {
      var n := |lost| - 1;
      UnrecoveredReadsChangeNothing(calls, lost[..n], matcherFailed, matched, forced);
      assert calls + lost == (calls + lost[..n]) + [lost[n]];
      hide Outputs, Occurs, Awaiting, Is;
      LostRead(calls + lost[..n], lost[n]);
    }
  }

  lemma LostRead(calls: seq<Call>, c: Call)
    requires Is(ReadFailure, c)
    ensures Outputs(calls + [c]) == Outputs(calls) && Awaiting(calls + [c]) == Awaiting(calls) + 1
    ensures Occurs(UnresolvedFailure, calls + [c]) == Occurs(UnresolvedFailure, calls)
    ensures Occurs(UnresolvedUnknown, calls + [c]) == Occurs(UnresolvedUnknown, calls)
    ensures Occurs(MutatingSuccess, calls + [c]) == Occurs(MutatingSuccess, calls)
  {
    AppendWaits(calls, c);
    AppendCounts(calls, c);
    OccursNoMore(UnresolvedFailure, calls, c);
    OccursNoMore(UnresolvedUnknown, calls, c);
    OccursNoMore(MutatingSuccess, calls, c);
  }

  lemma OccursNoMore(k: Kind, calls: seq<Call>, c: Call)
    requires !Is(k, c)
    ensures Occurs(k, calls + [c]) == Occurs(k, calls)
  {
    CountsSome(k, calls);
    CountsSome(k, calls + [c]);
    CountMore(k, calls, c);
  }

  /* ---------- recovery ---------- */

  /** How many failed reads still wait for a later successful one, each success serving one of them. */
  function Awaiting(calls: seq<Call>): nat {
    if calls == [] then 0
    else
      var w := Awaiting(calls[..|calls| - 1]);
      var c := calls[|calls| - 1];
      if Is(ReadFailure, c) then w + 1 else if Is(ReadSuccess, c) && w > 0 then w - 1 else w
  }

  // By how many the failed reads outnumber the successful ones from call k on.
  function Excess(calls: seq<Call>, k: nat): int
    requires k <= |calls|
  {
    Count(ReadFailure, calls[k..]) - Count(ReadSuccess, calls[k..])
  }

  /** As many reads wait as failed reads outnumber successful ones in the end stretch where they do most. */
  lemma {:induction false} AwaitingIsWorstExcess(calls: seq<Call>)
    ensures forall k :: 0 <= k <= |calls| ==> Excess(calls, k) <= Awaiting(calls)
    ensures exists k :: 0 <= k <= |calls| && Excess(calls, k) == Awaiting(calls)
  {
    if calls == [] {
      assert Excess(calls, 0) == 0;
    } else {
      var n := |calls| - 1;
      var p, c := calls[..n], calls[n];
      AwaitingIsWorstExcess(p);
      assert Excess(calls, n + 1) == 0;
      forall k | 0 <= k <= n
        ensures Excess(calls, k) ==
                Excess(p, k) + (if Is(ReadFailure, c) then 1 else 0) - (if Is(ReadSuccess, c) then 1 else 0)
      {
        assert calls[k..] == p[k..] + [c];
        CountMore(ReadFailure, p[k..], c);
        CountMore(ReadSuccess, p[k..], c);
      }
      var k :| 0 <= k <= n && Excess(p, k) == Awaiting(p);
      hide Excess;
      assert Awaiting(calls) == Excess(calls, k) || Awaiting(calls) == Excess(calls, n + 1);
    }
  }

  /** The other failed reads are recovered: no more of them than read successes. */
  lemma {:induction false} AwaitingAtMostFailed(calls: seq<Call>)
    ensures Awaiting(calls) <= Count(ReadFailure, calls) <= Awaiting(calls) + Count(ReadSuccess, calls)
  {
    if calls != [] {
      AwaitingAtMostFailed(calls[..|calls| - 1]);
    }
  }

  /* ---------- the capture context ---------- */

  /** The counters of the context dictionary. */
  datatype Tally = Tally(
    succeeded: nat, failed: nat, unknown: nat, readFailed: nat, readRecovered: nat, readPendingRecovery: nat,
    unresolvedFailed: nat, unresolvedUnknown: nat, mutatingSucceeded: nat)

  /**
   The counters count the calls. Failed reads are recovered or wait as the sequence of calls that ended
   in their hooks says; calls settled at the end are not among those.
   */
  ghost predicate Agrees(t: Tally, calls: seq<Call>, hooked: seq<Call>) {
    && t.succeeded == Count(Success, calls) && t.failed == Count(Failure, calls)
    && t.unknown == Count(UnknownResult, calls) && t.readFailed == Count(ReadFailure, calls)
    && t.unresolvedFailed == Count(UnresolvedFailure, calls) && t.unresolvedUnknown == Count(UnresolvedUnknown, calls)
    && t.mutatingSucceeded == Count(MutatingSuccess, calls)
    && t.readPendingRecovery == Awaiting(hooked)
    && t.readRecovered + t.readPendingRecovery == Count(ReadFailure, hooked) <= t.readFailed
  }

  /** The pending calls, each once and with its effect and message, follow as calls of unknown result. */
  ghost predicate Settles(before: seq<Call>, pending: map<nat, Staged>, after: seq<Call>) {
    exists order: seq<nat> :: InOrder(before, pending, after, order)
  }

  predicate InOrder(before: seq<Call>, pending: map<nat, Staged>, after: seq<Call>, order: seq<nat>) {
    && |order| == |pending| && |after| == |before| + |order| && before <= after
    && (forall h :: h in pending ==> h in order)
    && forall i :: 0 <= i < |order| ==>
         order[i] in pending &&
         after[|before| + i] == Call(pending[order[i]].effect, Unknown, pending[order[i]].output)
  }

  lemma SettlesOne(
    before: seq<Call>, pending: map<nat, Staged>, left: map<nat, Staged>, after: seq<Call>, done: seq<nat>, h: nat)
    requires Partly(before, pending, left, after, done) && h in left
    ensures Partly(before, pending, left - {h}, after + [Call(left[h].effect, Unknown, left[h].output)], done + [h])
  {
  }

  // These handles are settled so far and these are left.
  predicate Partly(
    before: seq<Call>, pending: map<nat, Staged>, left: map<nat, Staged>, after: seq<Call>, done: seq<nat>)
  {
    && |done| + |left| == |pending| && |after| == |before| + |done| && before <= after
    && (forall h :: h in left ==> h in pending && left[h] == pending[h])
    && (forall h :: h in pending ==> h in done || h in left)
    && forall i :: 0 <= i < |done| ==>
         done[i] in pending &&
         after[|before| + i] == Call(pending[done[i]].effect, Unknown, pending[done[i]].output)
  }

  lemma PartlyAtFirst(calls: seq<Call>, pending: map<nat, Staged>)
    ensures Partly(calls, pending, pending, calls, [])
  {
  }

  lemma PartlyAtLast(before: seq<Call>, pending: map<nat, Staged>, after: seq<Call>, done: seq<nat>)
    requires Partly(before, pending, map[], after, done)
    ensures Settles(before, pending, after)
  {
    assert InOrder(before, pending, after, done);
  }

  lemma NothingYet()
    ensures Agrees(Tally(0, 0, 0, 0, 0, 0, 0, 0, 0), [], []) && Outputs([]) == []
  {
  }

  class Context {
    var messages: seq<Output>
    var pending: map<nat, Staged>
    var matcherMatched: nat
    var matcherFailed: nat
    var tally: Tally
    // the finished calls, in order, and those of them that ended in the hook after the call
    ghost var calls: seq<Call>
    ghost var hooked: seq<Call>

    ghost predicate Valid()
      reads this
    {
      messages == Outputs(calls) && Agrees(tally, calls, hooked)
    }

    constructor ()
      ensures Valid() && calls == [] && hooked == [] && pending == map[] && matcherFailed == 0 && matcherMatched == 0
    {
      hide Agrees, Outputs, Count, Awaiting;
      messages, pending, matcherMatched, matcherFailed := [], map[], 0, 0;
      tally := Tally(0, 0, 0, 0, 0, 0, 0, 0, 0);
      calls, hooked := [], [];
      NothingYet();
    }

    method CaptureOutgoing(handle: nat, effect: Effect, output: Option<Output>)
      requires Valid()
      modifies this`pending
      ensures Valid() && pending == old(pending)[handle := Staged(effect, output)]
    {
      pending := pending[handle := Staged(effect, output)];
    }

    // A call without a staged entry counts as unclassified and without output.
    static function StagedAt(pending: map<nat, Staged>, handle: nat): Staged {
      if handle in pending then pending[handle] else Staged(Unclassified, None)
    }

    method ConfirmOutgoing(handle: nat, outcome: Outcome)
      requires Valid()
      modifies this
      ensures Valid() && pending == old(pending) - {handle}
      ensures var staged := StagedAt(old(pending), handle);
              var c := Call(staged.effect, outcome, staged.output);
              calls == old(calls) + [c] && hooked == old(hooked) + [c]
      ensures matcherFailed == old(matcherFailed) && matcherMatched == old(matcherMatched)
    {
      hide Count, Outputs, Is, Awaiting;
      var staged := StagedAt(pending, handle);
      pending := pending - {handle};
      ghost var c := Call(staged.effect, outcome, staged.output);
      AppendCounts(calls, c);
      AppendWaits(hooked, c);
      calls := calls + [c];
      hooked := hooked + [c];
      var t := tally;
      if !outcome.Succeeded? {
        t := t.(failed := t.failed + 1);
        if outcome.Unknown? {
          t := t.(unknown := t.unknown + 1);
        }
        if staged.effect.ReadOnly? {
          t := t.(readFailed := t.readFailed + 1);
          t := t.(readPendingRecovery := t.readPendingRecovery + 1);
        } else {
          t := t.(unresolvedFailed := t.unresolvedFailed + 1);
          if outcome.Unknown? {
            t := t.(unresolvedUnknown := t.unresolvedUnknown + 1);
          }
        }
        tally := t;
        return;
      }
      t := t.(succeeded := t.succeeded + 1);
      if staged.effect.Mutating? {
        t := t.(mutatingSucceeded := t.mutatingSucceeded + 1);
      } else if staged.effect.ReadOnly? {
        if t.readPendingRecovery > 0 {
          t := t.(readPendingRecovery := t.readPendingRecovery - 1);
          t := t.(readRecovered := t.readRecovered + 1);
        }
      }
      if staged.output.Some? {
        messages := messages + [staged.output.value];
      }
      tally := t;
    }

    method ObserveMatcherFailure()
      requires Valid()
      modifies this`matcherFailed
      ensures Valid() && matcherFailed == old(matcherFailed) + 1
    {
      matcherFailed := matcherFailed + 1;
    }

    // A call still pending at the end has an unknown result.
    method SettlePending()
      requires Valid()
      modifies this
      ensures Valid() && pending == map[] && matcherFailed == old(matcherFailed)
              && matcherMatched == old(matcherMatched)
      ensures Settles(old(calls), old(pending), calls) && hooked == old(hooked)
    {
      hide Agrees, Outputs, Partly;
      ghost var done: seq<nat> := [];
      PartlyAtFirst(calls, pending);
      while pending != map[]
        invariant Valid() && hooked == old(hooked) && Partly(old(calls), old(pending), pending, calls, done)
        invariant matcherFailed == old(matcherFailed) && matcherMatched == old(matcherMatched)
        decreases |pending|
      {
        assert pending.Keys != {};
        var handle :| handle in pending.Keys;
        SettlesOne(old(calls), old(pending), pending, calls, done, handle);
        SettleOne(handle);
        done := done + [handle];
      }
      PartlyAtLast(old(calls), old(pending), calls, done);
    }

    method SettleOne(handle: nat)
      requires Valid() && handle in pending
      modifies this`pending, this`tally, this`calls
      ensures Valid() && pending == old(pending) - {handle} && |pending| == |old(pending)| - 1
      ensures calls == old(calls) + [Call(old(pending)[handle].effect, Unknown, old(pending)[handle].output)]
    {
      hide Count, Outputs, Is, Awaiting;
      var staged := pending[handle];
      ghost var c := Call(staged.effect, Unknown, staged.output);
      AppendCounts(calls, c);
      calls := calls + [c];
      tally := tally.(unknown := tally.unknown + 1, failed := tally.failed + 1);
      if staged.effect.ReadOnly? {
        tally := tally.(readFailed := tally.readFailed + 1);
      } else {
        tally := tally.(unresolvedFailed := tally.unresolvedFailed + 1);
        tally := tally.(unresolvedUnknown := tally.unresolvedUnknown + 1);
      }
      assert pending.Keys == (pending - {handle}).Keys + {handle};
      pending := pending - {handle};
    }

    /** The defensive minima and maxima all equal the plain counters, and the status is the verdict. */
    method DispatchResult(forced: Option<Status>) returns (r: Result)
      requires Valid()
      modifies this
      ensures Valid() && pending == map[] && Settles(old(calls), old(pending), calls) && hooked == old(hooked)
      ensures matcherFailed == old(matcherFailed) && matcherMatched == old(matcherMatched)
      ensures r.status == Verdict(calls, matcherFailed > 0, matcherMatched > 0, forced)
      ensures r.outputs == Outputs(calls) && r.recovered == Count(ReadFailure, hooked) - Awaiting(hooked)
      ensures r.unresolvedFailed == Count(UnresolvedFailure, calls)
      ensures r.unresolvedUnknown == Count(UnresolvedUnknown, calls)
    {
      SettlePending();
      CountsRelate(calls);
      forall k {
        CountsSome(k, calls);
      }
      hide Count, Outputs, Occurs;
      var t := tally;
      var hasEffect := messages != [] || t.mutatingSucceeded > 0;
      var recovered := if t.readRecovered < t.readFailed then t.readRecovered else t.readFailed;
      var unknown := Max(t.unresolvedUnknown, Max(0, t.unknown - t.readFailed));
      var failed := Max(t.unresolvedFailed, Max(Max(0, t.failed - t.readFailed), unknown));
      var status: Status;
      if forced.Some? {
        status := forced.value;
        if (status.FailedRun? || status.TimedOut? || status.ResultUnknown?) && hasEffect {
          status := PartialSuccess;
        } else if unknown > 0 && (status.FailedRun? || status.TimedOut?) {
          status := ResultUnknown;
        }
      } else if unknown > 0 {
        status := if hasEffect then PartialSuccess else ResultUnknown;
      } else if matcherFailed > 0 || failed > 0 {
        status := if hasEffect then PartialSuccess else FailedRun;
      } else if messages != [] {
        status := WithOutput;
      } else if t.mutatingSucceeded > 0 {
        status := SideEffect;
      } else if t.readFailed > 0 {
        status := FailedRun;
      } else if matcherMatched > 0 {
        status := Empty;
      } else {
        status := NotMatched;
      }
      r := Result(status, messages, recovered, failed, unknown);
    }
  }
}
