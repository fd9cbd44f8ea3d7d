/**
 The lease queue for non-critical audit events. `Ledger` is the whole story in one sequence: every
 record ever accepted, in order, of which a prefix is acknowledged and the next few are leased. The
 class with its deque, its leased entries and its lease object is proved to follow the ledger.
 Each call runs without suspension between its wait points, so calls are atomic steps.
 */
module AuditQueue {
  import opened Wrappers

  datatype Record = Record(id: nat, persisted: bool, batchable: bool)
  {
    predicate Queueable() {
      !persisted && batchable
    }
  }

  datatype Entry = Entry(record: Record, at: real)

  datatype Phase = Open | Closing | Closed | ResultUnknown

  const MAX_AUDIT_BATCH_SIZE := 100

  datatype Policy = Policy(maxBatch: nat, interval: real, maxOutstanding: nat) {
    predicate Ok() {
      && 1 <= maxBatch <= MAX_AUDIT_BATCH_SIZE
      && 0.001 <= interval <= 60.0
      && maxBatch <= maxOutstanding <= 100_000
    }
  }

  datatype Refusal = NotQueueable | IsClosed | IsUnknown | BadClock | NotTheLease

  datatype Answer =
    | Done
    | Refused(reason: Refusal)
    | NothingReady
    | Drained
    | Waits(timeout: Option<real>)
    | Leases(sequence: nat, entries: seq<Entry>, leasedAt: real)

  function Min(a: nat, b: nat): nat {
    if a < b then a else b
  }

  datatype Op =
    | Put(record: Record, now: real)
    | LeaseReady(force: bool, now: real)
    | WaitForLease(now: real)
    | Acknowledge
    | Release
    | MarkUnknown
    | BeginClose

  /** Everything accepted: `accepted[..acked]` acknowledged, the next `leased` leased, the rest pending. */
  datatype Ledger = Ledger(
    policy: Policy, accepted: seq<Entry>, acked: nat, leased: nat, phase: Phase, clock: real, issued: nat)
  {
    predicate Bounded() {
      acked + leased <= |accepted|
    }

    function Outstanding(): int {
      |accepted| - acked
    }

    function LeasedEntries(): seq<Entry>
      requires Bounded()
    {
      accepted[acked..acked + leased]
    }

    function Pending(): seq<Entry>
      requires Bounded()
    {
      accepted[acked + leased..]
    }

    predicate SortedTimes() {
      && (forall i, j :: 0 <= i < j < |accepted| ==> accepted[i].at <= accepted[j].at)
      && (forall i :: 0 <= i < |accepted| ==> 0.0 <= accepted[i].at <= clock && accepted[i].record.Queueable())
    }

    predicate PhaseOk() {
      match phase
      case Open => true
      case Closing => Outstanding() > 0
      case Closed => Outstanding() == 0
      case ResultUnknown => leased > 0
    }

    predicate Ok() {
      && policy.Ok() && Bounded() && leased <= policy.maxBatch && Outstanding() <= policy.maxOutstanding
      && 0.0 <= clock && SortedTimes() && PhaseOk()
    }

    predicate ClockOk(now: real) {
      clock <= now
    }

    predicate Ready(now: real, force: bool)
      requires Bounded()
    {
      && Pending() != [] && leased == 0
      && (force || phase.Closing? || |Pending()| >= policy.maxBatch || now - Pending()[0].at >= policy.interval)
    }

    function Settled(): Ledger {
      if phase.Closing? && Outstanding() == 0 then this.(phase := Closed) else this
    }

    function Lease(now: real): (Ledger, Answer)
      requires Bounded() && leased == 0
    {
      var n := Min(policy.maxBatch, |Pending()|);
      (this.(leased := n, issued := issued + 1, clock := now), Leases(issued + 1, Pending()[..n], now))
    }

    function Timeout(now: real): Option<real>
      requires Bounded()
    {
      if leased == 0 && Pending() != [] then
        var due := Pending()[0].at + policy.interval - now;
        Some(if due > 0.0 then due else 0.0)
      else None
    }

    /** One call: the next ledger and what the caller sees. A refused or waiting call changes at most the clock. */
    function Step(op: Op): (Ledger, Answer)
      requires Bounded()
    {
      match op
      case Put(record, now) =>
        if !record.Queueable() then (this, Refused(NotQueueable))
        else if phase.ResultUnknown? then (this, Refused(IsUnknown))
        else if !phase.Open? then (this, Refused(IsClosed))
        else if Outstanding() >= policy.maxOutstanding then (this, Waits(None))
        else if !ClockOk(now) then (this, Refused(BadClock))
        else (this.(accepted := accepted + [Entry(record, now)], clock := now), Done)
      case LeaseReady(force, now) =>
        if phase.ResultUnknown? then (this, Refused(IsUnknown))
        else if !ClockOk(now) then (this, Refused(BadClock))
        else if Ready(now, force) then Lease(now)
        else (this.(clock := now), NothingReady)
      case WaitForLease(now) =>
        if phase.ResultUnknown? then (this, Refused(IsUnknown))
        else if !ClockOk(now) then (this, Refused(BadClock))
        else if Ready(now, false) then Lease(now)
        else (this.(clock := now), if phase.Closed? then Drained else Waits(Timeout(now)))
      case Acknowledge =>
        if phase.ResultUnknown? then (this, Refused(IsUnknown))
        else if leased == 0 then (this, Refused(NotTheLease))
        else (this.(acked := acked + leased, leased := 0).Settled(), Done)
      case Release =>
        if phase.ResultUnknown? then (this, Refused(IsUnknown))
        else if leased == 0 then (this, Refused(NotTheLease))
        else (this.(leased := 0), Done)
      case MarkUnknown =>
        if leased == 0 then (this, Refused(NotTheLease)) else (this.(phase := ResultUnknown), Done)
      case BeginClose =>
        if phase.ResultUnknown? then (this, Refused(IsUnknown))
        else if phase.Open? then (this.(phase := Closing).Settled(), Done)
        else (this, Done)
    }
  }

  function Fresh(policy: Policy): Ledger {
    Ledger(policy, [], 0, 0, Open, 0.0, 0)
  }

  lemma StepBounded(q: Ledger, op: Op)
    requires q.Bounded()
    ensures q.Step(op).0.Bounded()
  {
  }

  function After(q: Ledger, ops: seq<Op>): (r: Ledger)
    requires q.Bounded()
    ensures r.Bounded()
    decreases |ops|
  {
    if ops == [] then q
    else
      StepBounded(q, ops[0]);
      After(q.Step(ops[0]).0, ops[1..])
  }

  /* ---------- what every run keeps ---------- */

  lemma StepSorted(q: Ledger, op: Op)
    requires q.Bounded() && q.SortedTimes() && 0.0 <= q.clock
    ensures q.Step(op).0.SortedTimes()
  {
    hide Ledger.Ready;
  }

  /** Order and caps: enqueue times stay sorted, outstanding records stay within the cap. */
  lemma StepOk(q: Ledger, op: Op)
    requires q.Ok()
    ensures q.Step(op).0.Ok()
    ensures q.accepted <= q.Step(op).0.accepted && q.acked <= q.Step(op).0.acked
    ensures q.issued <= q.Step(op).0.issued
  {
    StepSorted(q, op);
    hide Ledger.SortedTimes;
  }

  /**
   Any mix of puts, leases, acknowledgements, releases and closing keeps every accepted record in
   exactly one place and in order: what is acknowledged is always a growing prefix of what was accepted.
   */
  lemma {:induction false} RunsConserve(q: Ledger, ops: seq<Op>)
    requires q.Ok()
    ensures After(q, ops).Ok()
    ensures q.accepted <= After(q, ops).accepted && q.acked <= After(q, ops).acked
    decreases |ops|
  {
    if ops != [] {
      StepOk(q, ops[0]);
      RunsConserve(q.Step(ops[0]).0, ops[1..]);
    }
  }

  /* ---------- what a caller sees ---------- */

  /** The answers to a sequence of calls, in order. */
  function Answers(q: Ledger, ops: seq<Op>): (r: seq<Answer>)
    requires q.Bounded()
    ensures |r| == |ops|
    decreases |ops|
  {
    if ops == [] then []
    else
      StepBounded(q, ops[0]);
      [q.Step(ops[0]).1] + Answers(q.Step(ops[0]).0, ops[1..])
  }

  /** The records whose put was answered with success, in order. */
  function PutIn(ops: seq<Op>, answers: seq<Answer>): seq<Entry>
    requires |answers| == |ops|
  {
    if ops == [] then []
    else
      (if ops[0].Put? && answers[0].Done? then [Entry(ops[0].record, ops[0].now)] else [])
      + PutIn(ops[1..], answers[1..])
  }

  /** The lease a caller has out after these calls, given the one it had out before. */
  function Out(held: seq<Entry>, op: Op, answer: Answer): seq<Entry> {
    if answer.Leases? then answer.entries
    else if answer.Done? && (op.Acknowledge? || op.Release?) then []
    else held
  }

  /** The entries of the leases that were acknowledged, joined. */
  function Acknowledged(held: seq<Entry>, ops: seq<Op>, answers: seq<Answer>): seq<Entry>
    requires |answers| == |ops|
    decreases |ops|
  {
    if ops == [] then []
    else
      (if ops[0].Acknowledge? && answers[0].Done? then held else [])
      + Acknowledged(Out(held, ops[0], answers[0]), ops[1..], answers[1..])
  }

  function Held(held: seq<Entry>, ops: seq<Op>, answers: seq<Answer>): seq<Entry>
    requires |answers| == |ops|
    decreases |ops|
  {
    if ops == [] then held else Held(Out(held, ops[0], answers[0]), ops[1..], answers[1..])
  }

  function LeaseCount(answers: seq<Answer>): nat {
    if answers == [] then 0 else (if answers[0].Leases? then 1 else 0) + LeaseCount(answers[1..])
  }

  /** A lease was marked as having an unknown result; closing was begun. */
  predicate Marked(ops: seq<Op>, answers: seq<Answer>)
    requires |answers| == |ops|
  {
    exists i :: 0 <= i < |ops| && ops[i].MarkUnknown? && answers[i].Done?
  }

  predicate Began(ops: seq<Op>, answers: seq<Answer>)
    requires |answers| == |ops|
  {
    exists i :: 0 <= i < |ops| && ops[i].BeginClose? && answers[i].Done?
  }

  function TimeOf(op: Op): real {
    match op
    case Put(_, now) => now
    case LeaseReady(_, now) => now
    case WaitForLease(now) => now
    case _ => 0.0
  }

  predicate NoLater(ops: seq<Op>, now: real) {
    0.0 <= now && forall i :: 0 <= i < |ops| ==> TimeOf(ops[i]) <= now
  }

  lemma StepSeen(q: Ledger, op: Op)
    requires q.Bounded()
    ensures var (r, a) := q.Step(op);
            && r.Bounded()
            && r.accepted == q.accepted + (if op.Put? && a.Done? then [Entry(op.record, op.now)] else [])
            && r.LeasedEntries() == Out(q.LeasedEntries(), op, a)
            && r.issued == q.issued + (if a.Leases? then 1 else 0)
            && q.acked <= r.acked <= |q.accepted|
            && q.accepted[q.acked..r.acked] == if op.Acknowledge? && a.Done? then q.LeasedEntries() else []
  {
    hide Ledger.SortedTimes;
    var (r, a) := q.Step(op);
    if a.Leases? {
      assert r.LeasedEntries() == a.entries;
    }
  }

  lemma FirstAnswer(q: Ledger, ops: seq<Op>)
    requires q.Bounded() && ops != []
    ensures var (m, a) := q.Step(ops[0]);
            var rest := Answers(m, ops[1..]);
            && m.Bounded() && After(q, ops) == After(m, ops[1..])
            && PutIn(ops, Answers(q, ops)) ==
               (if ops[0].Put? && a.Done? then [Entry(ops[0].record, ops[0].now)] else []) + PutIn(ops[1..], rest)
            && LeaseCount(Answers(q, ops)) == (if a.Leases? then 1 else 0) + LeaseCount(rest)
            && (forall held :: Held(held, ops, Answers(q, ops)) == Held(Out(held, ops[0], a), ops[1..], rest))
            && forall held :: Acknowledged(held, ops, Answers(q, ops)) ==
                              (if ops[0].Acknowledge? && a.Done? then held else [])
                              + Acknowledged(Out(held, ops[0], a), ops[1..], rest)
  {
    StepBounded(q, ops[0]);
    hide Ledger.Step;
    assert Answers(q, ops)[1..] == Answers(q.Step(ops[0]).0, ops[1..]);
  }

  // A stretch of a sequence cut in two, of which the first part was there before the sequence grew.
  lemma CutStretch(was: seq<Entry>, grown: seq<Entry>, i: nat, j: nat, k: nat)
    requires was <= grown && i <= j <= |was| && j <= k <= |grown|
    ensures grown[i..k] == was[i..j] + grown[j..k]
  {
  }

  lemma {:induction false} OnlyGrows(q: Ledger, ops: seq<Op>)
    requires q.Bounded()
    ensures q.accepted <= After(q, ops).accepted && q.acked <= After(q, ops).acked <= |After(q, ops).accepted|
    decreases |ops|
  {
    if ops != [] {
      StepSeen(q, ops[0]);
      hide Ledger.Step;
      OnlyGrows(q.Step(ops[0]).0, ops[1..]);
    }
  }

  // The accepted and the acknowledged entries over the first call and the others.
  lemma JoinSeen(q: Ledger, m: Ledger, r: Ledger, op: Op, a: Answer, puts: seq<Entry>, gone: seq<Entry>)
    requires q.Bounded() && q.acked <= m.acked <= |q.accepted| && q.accepted <= m.accepted <= r.accepted
    requires m.acked <= r.acked <= |r.accepted|
    requires m.accepted == q.accepted + (if op.Put? && a.Done? then [Entry(op.record, op.now)] else [])
    requires q.accepted[q.acked..m.acked] == if op.Acknowledge? && a.Done? then q.LeasedEntries() else []
    requires r.accepted == m.accepted + puts && r.accepted[m.acked..r.acked] == gone
    ensures r.accepted == q.accepted + ((if op.Put? && a.Done? then [Entry(op.record, op.now)] else []) + puts)
    ensures r.accepted[q.acked..r.acked] == (if op.Acknowledge? && a.Done? then q.LeasedEntries() else []) + gone
  {
    hide Ledger.LeasedEntries;
    CutStretch(q.accepted, r.accepted, q.acked, m.acked, r.acked);
  }

  /**
   From the outside: what the queue holds is what it held and every record whose put succeeded, in order,
   and what is gone from it is exactly what the acknowledged leases showed.
   */
  lemma {:induction false} SeenFromOutside(q: Ledger, ops: seq<Op>)
    requires q.Bounded()
    ensures After(q, ops).accepted == q.accepted + PutIn(ops, Answers(q, ops))
    ensures q.acked <= After(q, ops).acked <= |After(q, ops).accepted|
    ensures After(q, ops).accepted[q.acked..After(q, ops).acked] ==
            Acknowledged(q.LeasedEntries(), ops, Answers(q, ops))
    ensures After(q, ops).LeasedEntries() == Held(q.LeasedEntries(), ops, Answers(q, ops))
    ensures After(q, ops).issued == q.issued + LeaseCount(Answers(q, ops))
    decreases |ops|
  {
    if ops != [] {
      hide Ledger.Step, Ledger.LeasedEntries, Answers, PutIn, Acknowledged, Held, LeaseCount, After, Out;
      StepSeen(q, ops[0]);
      FirstAnswer(q, ops);
      var (m, a) := q.Step(ops[0]);
      OnlyGrows(m, ops[1..]);
      SeenFromOutside(m, ops[1..]);
      var rest := Answers(m, ops[1..]);
      JoinSeen(q, m, After(m, ops[1..]), ops[0], a, PutIn(ops[1..], rest),
               Acknowledged(m.LeasedEntries(), ops[1..], rest));
    }
  }

  lemma {:induction false} PhaseSeen(q: Ledger, ops: seq<Op>)
    requires q.Bounded()
    ensures After(q, ops).phase.ResultUnknown? <==> q.phase.ResultUnknown? || Marked(ops, Answers(q, ops))
    ensures After(q, ops).phase.Open? <==>
            q.phase.Open? && !Marked(ops, Answers(q, ops)) && !Began(ops, Answers(q, ops))
    decreases |ops|
  {
    if ops != [] {
      FirstAnswer(q, ops);
      var (m, a) := q.Step(ops[0]);
      PhaseSeen(m, ops[1..]);
      PhaseStep(q, ops[0]);
      var answers, rest := Answers(q, ops), Answers(m, ops[1..]);
      assert answers == [a] + rest;
      hide Ledger.Step, Answers, After;
      assert forall i :: 0 < i < |ops| ==> ops[i] == ops[1..][i - 1] && answers[i] == rest[i - 1];
      assert forall i :: 0 <= i < |rest| ==> ops[1..][i] == ops[i + 1] && rest[i] == answers[i + 1];
    }
  }

  lemma PhaseStep(q: Ledger, op: Op)
    requires q.Bounded()
    ensures var (m, a) := q.Step(op);
            && (m.phase.ResultUnknown? <==> q.phase.ResultUnknown? || (op.MarkUnknown? && a.Done?))
            && (m.phase.Open? <==> q.phase.Open? && !((op.MarkUnknown? || op.BeginClose?) && a.Done?))
  {
  }

  lemma {:induction false} ClockSeen(q: Ledger, ops: seq<Op>, now: real)
    requires q.Bounded() && q.clock <= now && NoLater(ops, now)
    ensures After(q, ops).clock <= now
    decreases |ops|
  {
    if ops != [] {
      StepBounded(q, ops[0]);
      ClockSeen(q.Step(ops[0]).0, ops[1..], now);
    }
  }

  /** What a caller can tell from its calls and their answers alone. */
  datatype View = View(accepted: seq<Entry>, gone: nat, held: seq<Entry>, marked: bool, began: bool, leases: nat) {
    predicate Ok() {
      gone + |held| <= |accepted|
    }

    function Waiting(): seq<Entry>
      requires Ok()
    {
      accepted[gone + |held|..]
    }
  }

  function Seen(ops: seq<Op>, answers: seq<Answer>): View
    requires |answers| == |ops|
  {
    View(PutIn(ops, answers), |Acknowledged([], ops, answers)|, Held([], ops, answers), Marked(ops, answers),
         Began(ops, answers), LeaseCount(answers))
  }

  // Something waits, and it is urgent, fills a batch or is old enough.
  predicate Due(policy: Policy, waiting: seq<Entry>, now: real, urgent: bool) {
    waiting != [] && (urgent || |waiting| >= policy.maxBatch || now >= waiting[0].at + policy.interval)
  }

  // A full batch from the front, or everything.
  function Batch(policy: Policy, waiting: seq<Entry>): seq<Entry> {
    if |waiting| <= policy.maxBatch then waiting else waiting[..policy.maxBatch]
  }

  /** The answer to the next call. */
  function RightAnswer(policy: Policy, v: View, op: Op): Answer
    requires v.Ok()
  {
    match op
    case Put(record, _) =>
      if record.persisted || !record.batchable then Refused(NotQueueable)
      else if v.marked then Refused(IsUnknown)
      else if v.began then Refused(IsClosed)
      else if |v.accepted| - v.gone >= policy.maxOutstanding then Waits(None)
      else Done
    case LeaseReady(force, now) =>
      if v.marked then Refused(IsUnknown)
      else if v.held == [] && Due(policy, v.Waiting(), now, force || v.began) then
        Leases(v.leases + 1, Batch(policy, v.Waiting()), now)
      else NothingReady
    case WaitForLease(now) =>
      if v.marked then Refused(IsUnknown)
      else if v.held == [] && Due(policy, v.Waiting(), now, v.began) then
        Leases(v.leases + 1, Batch(policy, v.Waiting()), now)
      else if v.began && |v.accepted| == v.gone then Drained
      else if v.held != [] || v.Waiting() == [] then Waits(None)
      else Waits(Some(v.Waiting()[0].at + policy.interval - now))
    case Acknowledge => if v.marked then Refused(IsUnknown) else if v.held == [] then Refused(NotTheLease) else Done
    case Release => if v.marked then Refused(IsUnknown) else if v.held == [] then Refused(NotTheLease) else Done
    case MarkUnknown => if v.held == [] then Refused(NotTheLease) else Done
    case BeginClose => if v.marked then Refused(IsUnknown) else Done
  }

  predicate Timed(op: Op) {
    op.Put? || op.LeaseReady? || op.WaitForLease?
  }

  // The view agrees with the ledger.
  ghost predicate Matches(q: Ledger, v: View) {
    && q.Bounded() && v.Ok()
    && q.accepted == v.accepted && q.acked == v.gone && q.LeasedEntries() == v.held && q.issued == v.leases
    && (q.phase.ResultUnknown? <==> v.marked) && (q.phase.Open? <==> !v.marked && !v.began)
  }

  lemma StepIsRight(q: Ledger, v: View, op: Op)
    requires q.Ok() && Matches(q, v) && (Timed(op) ==> q.clock <= TimeOf(op))
    ensures q.Step(op).1 == RightAnswer(q.policy, v, op)
  {
    hide Ledger.SortedTimes;
    assert |v.held| == q.leased && q.Pending() == v.Waiting();
  }

  /**
   From a new queue, every answer is the one its caller can work out from the calls and answers so far,
   if the clock does not run backwards.
   */
  lemma AnswersAreRight(policy: Policy, ops: seq<Op>, op: Op)
    requires policy.Ok() && (Timed(op) ==> NoLater(ops, TimeOf(op)))
    ensures Seen(ops, Answers(Fresh(policy), ops)).Ok()
    ensures After(Fresh(policy), ops).Step(op).1 == RightAnswer(policy, Seen(ops, Answers(Fresh(policy), ops)), op)
  {
    hide Ledger.Step, Answers, PutIn, Acknowledged, Held, LeaseCount, After, Marked, Began;
    var q := Fresh(policy);
    RunsConserve(q, ops);
    SeenFromOutside(q, ops);
    PhaseSeen(q, ops);
    PolicyStays(q, ops);
    if Timed(op) {
      ClockSeen(q, ops, TimeOf(op));
    }
    var r := After(q, ops);
    assert |r.accepted[q.acked..r.acked]| == r.acked;
    StepIsRight(r, Seen(ops, Answers(q, ops)), op);
  }

  lemma {:induction false} PolicyStays(q: Ledger, ops: seq<Op>)
    requires q.Bounded()
    ensures After(q, ops).policy == q.policy
    decreases |ops|
  {
    if ops != [] {
      StepBounded(q, ops[0]);
      PolicyStays(q.Step(ops[0]).0, ops[1..]);
    }
  }

  /** Released records are the first of the next lease, whatever was put in meanwhile. */
  lemma {:induction false} ReleasedComeFirst(q: Ledger, ops: seq<Op>, next: Op)
    requires q.Ok() && q.leased > 0 && !q.phase.ResultUnknown?
    requires forall i :: 0 <= i < |ops| ==> ops[i].Put?
    requires After(q.Step(Release).0, ops).Step(next).1.Leases?
    ensures q.LeasedEntries() <= After(q.Step(Release).0, ops).Step(next).1.entries
  {
    var r := q.Step(Release).0;
    StepOk(q, Release);
    RunsConserve(r, ops);
    PolicyStays(r, ops);
    PutsOnly(r, ops);
    var t := After(r, ops);
    hide After, Ledger.Ready, Ledger.SortedTimes;
    assert t.Pending()[..q.leased] == q.LeasedEntries();
  }

  lemma {:induction false} PutsOnly(q: Ledger, ops: seq<Op>)
    requires q.Bounded() && forall i :: 0 <= i < |ops| ==> ops[i].Put?
    ensures After(q, ops).acked == q.acked && After(q, ops).leased == q.leased
    decreases |ops|
  {
    if ops != [] {
      StepBounded(q, ops[0]);
      PutsOnly(q.Step(ops[0]).0, ops[1..]);
    }
  }

  /** After an unknown result nothing moves any more, so nothing is leased a second time. */
  lemma {:induction false} UnknownIsTerminal(q: Ledger, ops: seq<Op>)
    requires q.Ok() && q.phase.ResultUnknown?
    ensures After(q, ops) == q
    decreases |ops|
  {
    if ops != [] {
      assert q.Step(ops[0]).0 == q;
      UnknownIsTerminal(q.Step(ops[0]).0, ops[1..]);
    }
  }

  /** A closed queue has acknowledged everything it accepted, and accepts nothing more. */
  lemma {:induction false} ClosedIsDrained(q: Ledger, ops: seq<Op>)
    requires q.Ok() && q.phase.Closed?
    ensures q.acked == |q.accepted|
    ensures After(q, ops).(clock := q.clock) == q
    decreases |ops|
  {
    if ops != [] {
      var r := q.Step(ops[0]).0;
      assert q.Pending() == [];
      assert r.(clock := q.clock) == q;
      StepOk(q, ops[0]);
      ClosedIsDrained(r, ops[1..]);
      assert After(r, ops[1..]).(clock := r.clock) == r;
    }
  }

  /** Looking at the head is enough: if any pending record is overdue, the oldest is. */
  lemma HeadSuffices(q: Ledger, now: real, i: nat)
    requires q.Ok() && i < |q.Pending()| && now - q.Pending()[i].at >= q.policy.interval
    ensures now - q.Pending()[0].at >= q.policy.interval
  {
    assert q.Pending()[0] == q.accepted[q.acked + q.leased];
    assert q.Pending()[i] == q.accepted[q.acked + q.leased + i];
  }

  // What the lease record's own constructor demands.
  predicate LeaseOk(a: Answer) {
    && a.Leases? && a.sequence > 0
    && 1 <= |a.entries| <= MAX_AUDIT_BATCH_SIZE
    && (forall i :: 0 <= i < |a.entries| ==> a.entries[i].record.Queueable())
    && 0.0 <= a.entries[0].at <= a.leasedAt
  }

  /** The records are already off the deque when the lease is built, and building it never fails. */
  lemma LeaseConstructs(q: Ledger, now: real, force: bool)
    requires q.Ok() && q.ClockOk(now) && q.Ready(now, force)
    ensures LeaseOk(q.Lease(now).1)
    ensures q.Lease(now).1.entries == q.Lease(now).0.LeasedEntries()
    ensures q.Lease(now).0.LeasedEntries() + q.Lease(now).0.Pending() == q.Pending()
  {
    var e := q.Lease(now).1.entries;
    forall i | 0 <= i < |e| ensures e[i] == q.accepted[q.acked + i] {
    }
  }

  /** A waiter told to sleep for t finds its lease once t has passed, and never waits on a due record. */
  lemma TimeoutSuffices(q: Ledger, now: real, later: real)
    requires q.Ok() && q.Step(WaitForLease(now)).1.Waits?
    ensures var (r, a) := q.Step(WaitForLease(now));
            match a.timeout
            case None => r.Pending() == [] || r.leased > 0
            case Some(t) => t > 0.0 && (later >= now + t ==> r.Step(WaitForLease(later)).1.Leases?)
  {
  }

  /* ---------- closing drains the queue ---------- */

  function Rounds(n: nat, now: real): seq<Op> {
    if n == 0 then [] else [WaitForLease(now), Acknowledge] + Rounds(n - 1, now)
  }

  function Batches(records: nat, size: nat): nat
    requires size > 0
  {
    if records == 0 then 0 else 1 + Batches(records - Min(size, records), size)
  }

  lemma RoundStep(q: Ledger, now: real)
    requires q.Ok() && q.phase.Closing? && q.leased == 0 && q.ClockOk(now)
    ensures var r := q.Step(WaitForLease(now)).0.Step(Acknowledge).0;
            && r.Ok() && r.leased == 0 && r.ClockOk(now) && r.policy == q.policy
            && (if |q.Pending()| <= q.policy.maxBatch then r.phase.Closed?
                else r.phase.Closing? && |r.Pending()| == |q.Pending()| - q.policy.maxBatch)
  {
    StepOk(q, WaitForLease(now));
    StepOk(q.Step(WaitForLease(now)).0, Acknowledge);
  }

  /** A closing queue with no lease out is closed after as many lease and acknowledge rounds as it has batches. */
  lemma {:induction false} ClosingDrains(q: Ledger, now: real)
    requires q.Ok() && q.phase.Closing? && q.leased == 0 && q.ClockOk(now)
    ensures After(q, Rounds(Batches(|q.Pending()|, q.policy.maxBatch), now)).phase.Closed?
    decreases |q.Pending()|
  {
    var k := Batches(|q.Pending()|, q.policy.maxBatch);
    var leased := q.Step(WaitForLease(now)).0;
    var r := leased.Step(Acknowledge).0;
    var rest := Rounds(k - 1, now);
    RoundStep(q, now);
    assert ([WaitForLease(now), Acknowledge] + rest)[1..] == [Acknowledge] + rest;
    assert ([Acknowledge] + rest)[1..] == rest;
    assert After(q, Rounds(k, now)) == After(leased, [Acknowledge] + rest) == After(r, rest);
    if |q.Pending()| > q.policy.maxBatch {
      ClosingDrains(r, now);
    }
  }

  /* ---------- the queue itself ---------- */

  /** A lease is compared by identity. */
  class Lease {
    const sequence: nat
    const entries: seq<Entry>
    const leasedAt: real

    constructor (sequence: nat, entries: seq<Entry>, leasedAt: real)
      requires LeaseOk(Leases(sequence, entries, leasedAt))
      ensures this.sequence == sequence && this.entries == entries && this.leasedAt == leasedAt
    {
      this.sequence, this.entries, this.leasedAt := sequence, entries, leasedAt;
    }
  }

  class Queue {
    const policy: Policy
    var pending: seq<Entry>
    var leasedEntries: seq<Entry>
    var lease: Lease?
    var nextSequence: nat
    var phase: Phase
    var lastClock: real
    ghost var ledger: Ledger

    ghost predicate Valid()
      reads this
    {
      && ledger.Ok() && ledger.policy == policy
      && pending == ledger.Pending() && leasedEntries == ledger.LeasedEntries()
      && (lease == null <==> ledger.leased == 0)
      && (lease != null ==> lease.entries == leasedEntries)
      && nextSequence == ledger.issued + 1 && phase == ledger.phase && lastClock == ledger.clock
    }

    constructor (policy: Policy)
      requires policy.Ok()
      ensures Valid() && ledger == Fresh(policy)
    {
      this.policy := policy;
      pending, leasedEntries, lease := [], [], null;
      nextSequence, phase, lastClock := 1, Open, 0.0;
      ledger := Fresh(policy);
    }

    function OutstandingCount(): nat
      reads this
    {
      |pending| + if lease == null then 0 else |lease.entries|
    }

    predicate IsReady(now: real, force: bool)
      reads this
    {
      && pending != [] && lease == null
      && (force || phase.Closing? || |pending| >= policy.maxBatch || now - pending[0].at >= policy.interval)
    }

    method FinishCloseIfEmpty()
      modifies this`phase
      ensures phase == if old(phase).Closing? && pending == [] && lease == null then Closed else old(phase)
    {
      if phase.Closing? && pending == [] && lease == null {
        phase := Closed;
      }
    }

    // `put` from one wait to the next.
    method PutOnce(record: Record, now: real) returns (answer: Answer)
      requires Valid()
      modifies this
      ensures Valid() && (ledger, answer) == old(ledger).Step(Put(record, now))
    {
      hide Ledger.SortedTimes, Policy.Ok;
      StepOk(ledger, Put(record, now));
      if !record.Queueable() {
        return Refused(NotQueueable);
      }
      if phase.ResultUnknown? {
        return Refused(IsUnknown);
      }
      if !phase.Open? {
        return Refused(IsClosed);
      }
      if OutstandingCount() >= policy.maxOutstanding {
        return Waits(None);
      }
      if now < lastClock {
        return Refused(BadClock);
      }
      lastClock := now;
      pending := pending + [Entry(record, now)];
      ledger := ledger.Step(Put(record, now)).0;
      answer := Done;
    }

    method PopLeft(count: nat) returns (entries: seq<Entry>)
      requires count <= |pending|
      modifies this`pending
      ensures entries == old(pending)[..count] && pending == old(pending)[count..]
    {
      entries := [];
      var i := 0;
      while i < count
        invariant i <= count && entries == old(pending)[..i] && pending == old(pending)[i..]
      {
        entries := entries + [pending[0]];
        pending := pending[1..];
        i := i + 1;
      }
    }

    method TakeLease(now: real, ghost force: bool) returns (answer: Answer)
      requires Valid() && IsReady(now, force) && lastClock <= now
      modifies this
      ensures Valid() && (ledger, answer) == old(ledger).Lease(now)
      ensures fresh(lease)
    {
      hide Ledger.SortedTimes, Record.Queueable, Policy.Ok;
      LeaseConstructs(ledger, now, force);
      StepOk(ledger, LeaseReady(force, now));
      var entries := PopLeft(Min(policy.maxBatch, |pending|));
      answer := Leases(nextSequence, entries, now);
      lease := new Lease(nextSequence, entries, now);
      nextSequence := nextSequence + 1;
      leasedEntries := entries;
      lastClock := now;
      ledger := ledger.Lease(now).0;
    }

    method TakeReady(force: bool, now: real) returns (answer: Answer)
      requires Valid()
      modifies this
      ensures Valid() && (ledger, answer) == old(ledger).Step(LeaseReady(force, now))
    {
      hide Ledger.SortedTimes, Policy.Ok, Record.Queueable;
      StepOk(ledger, LeaseReady(force, now));
      if phase.ResultUnknown? {
        return Refused(IsUnknown);
      }
      if now < lastClock {
        return Refused(BadClock);
      }
      if IsReady(now, force) {
        answer := TakeLease(now, force);
      } else {
        lastClock := now;
        ledger := ledger.Step(LeaseReady(force, now)).0;
        answer := NothingReady;
      }
      FinishCloseIfEmpty();
    }

    // `wait_for_lease` from one wait to the next.
    method AwaitOnce(now: real) returns (answer: Answer)
      requires Valid()
      modifies this
      ensures Valid() && (ledger, answer) == old(ledger).Step(WaitForLease(now))
    {
      hide Ledger.SortedTimes, Policy.Ok, Record.Queueable;
      StepOk(ledger, WaitForLease(now));
      if phase.ResultUnknown? {
        return Refused(IsUnknown);
      }
      if now < lastClock {
        return Refused(BadClock);
      }
      if IsReady(now, false) {
        answer := TakeLease(now, false);
        return;
      }
      lastClock := now;
      ledger := ledger.Step(WaitForLease(now)).0;
      FinishCloseIfEmpty();
      if phase.Closed? {
        return Drained;
      }
      if lease == null && pending != [] {
        var due := pending[0].at + policy.interval - now;
        return Waits(Some(if due > 0.0 then due else 0.0));
      }
      return Waits(None);
    }

    method AcknowledgeCommitted(l: Lease) returns (answer: Answer)
      requires Valid()
      modifies this
      ensures Valid()
      ensures l == old(lease) ==> (ledger, answer) == old(ledger).Step(Acknowledge)
      ensures l != old(lease) ==>
                ledger == old(ledger) && answer == Refused(if phase.ResultUnknown? then IsUnknown else NotTheLease)
    {
      hide Ledger.SortedTimes, Policy.Ok, Record.Queueable;
      StepOk(ledger, Acknowledge);
      if phase.ResultUnknown? {
        return Refused(IsUnknown);
      }
      if l != lease {
        return Refused(NotTheLease);
      }
      lease := null;
      leasedEntries := [];
      ledger := ledger.Step(Acknowledge).0;
      FinishCloseIfEmpty();
      answer := Done;
    }

    // `appendleft` of every entry, from the last to the first.
    method PushFront(entries: seq<Entry>)
      modifies this`pending
      ensures pending == entries + old(pending)
    {
      var i := |entries|;
      while i > 0
        invariant 0 <= i <= |entries| && pending == entries[i..] + old(pending)
      {
        i := i - 1;
        pending := [entries[i]] + pending;
      }
    }

    method ReleaseUnwritten(l: Lease) returns (answer: Answer)
      requires Valid()
      modifies this
      ensures Valid()
      ensures l == old(lease) ==> (ledger, answer) == old(ledger).Step(Release)
      ensures l != old(lease) ==>
                ledger == old(ledger) && answer == Refused(if phase.ResultUnknown? then IsUnknown else NotTheLease)
    {
      hide Ledger.SortedTimes, Policy.Ok, Record.Queueable;
      StepOk(ledger, Release);
      if phase.ResultUnknown? {
        return Refused(IsUnknown);
      }
      if l != lease {
        return Refused(NotTheLease);
      }
      PushFront(leasedEntries);
      lease := null;
      leasedEntries := [];
      ledger := ledger.Step(Release).0;
      answer := Done;
    }

    method MarkResultUnknown(l: Lease) returns (answer: Answer)
      requires Valid()
      modifies this
      ensures Valid()
      ensures l == old(lease) ==> (ledger, answer) == old(ledger).Step(MarkUnknown)
      ensures l != old(lease) ==> ledger == old(ledger) && answer == Refused(NotTheLease)
    {
      if l != lease {
        return Refused(NotTheLease);
      }
      phase := ResultUnknown;
      ledger := ledger.Step(MarkUnknown).0;
      answer := Done;
    }

    method Close() returns (answer: Answer)
      requires Valid()
      modifies this
      ensures Valid() && (ledger, answer) == old(ledger).Step(BeginClose)
    {
      hide Ledger.SortedTimes, Policy.Ok, Record.Queueable, Ledger.Ready;
      StepOk(ledger, BeginClose);
      if phase.ResultUnknown? {
        return Refused(IsUnknown);
      }
      if phase.Open? {
        phase := Closing;
      }
      ledger := ledger.Step(BeginClose).0;
      FinishCloseIfEmpty();
      answer := Done;
    }
  }
}
