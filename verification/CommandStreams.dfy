/** The SubmitCommands stream, and the one AI slot its streams compete for. */
module CommandStreams {
  import opened Basics
  import opened Commands
  import opened CommandQueues
  import opened CommandValidation

  datatype Stage = Reading | Finishing

  datatype CloseCode = Ok | InvalidArgument | ResourceExhausted

  /** What the client is told about one batch. */
  datatype BatchResult = BatchResult(batchSeq: nat, clientCommandId: Option<nat>, verdict: Verdict)

  datatype Ack = Ack(
    lastAcceptedBatchSeq: nat,
    accepted: nat,
    rejectedInvalid: nat,
    rejectedFull: nat,
    results: seq<BatchResult>
  )

  function ResultOf(b: Batch, v: Verdict): BatchResult {
    BatchResult(b.batchSeq, b.clientCommandId, v)
  }

  function AcceptedResults(batches: seq<Batch>): seq<BatchResult> {
    seq(|batches|, i requires 0 <= i < |batches| =>
      ResultOf(batches[i], Verdict(BatchAccepted, |batches[i].commands|, None)))
  }

  /** The verdict a batch gets in the stream. */
  ghost predicate Judged(s: Settings, w: World, b: Batch, outcome: Outcome, v: Verdict) {
    match outcome
    case Enqueued => v == Verdict(BatchAccepted, |b.commands|, None)
    case Stale => v == Verdict(RejectedStale, 0, Some((StaleOrDuplicateBatchSeq, 0)))
    case Full => v == Verdict(RejectedQueueFull, 0, Some((IssueCode.QueueFull, 0)))
    case Invalid =>
      && v.status == (if ShapeIssue(s, b) == Some(MissingStateBasis) then RejectedStale else RejectedInvalid)
      && v.acceptedCount == 0 && v.issue.Some? && ReportsFirst(s, w, b, v.issue.value.0, v.issue.value.1)
  }

  /** The entries of several batches, in order. */
  function AllEntries(batches: seq<Batch>, sessionId: string): seq<QueuedCommand> {
    if batches == [] then []
    else AllEntries(batches[..|batches| - 1], sessionId) + Entries(batches[|batches| - 1], sessionId)
  }

  /** The entries are those of the batches, one batch after the other. */
  predicate AllCarried(batches: seq<Batch>, sessionId: string, entries: seq<QueuedCommand>) {
    if batches == [] then entries == []
    else
      var n := |batches| - 1;
      var k := |entries| - |batches[n].commands|;
      k >= 0 && AllCarried(batches[..n], sessionId, entries[..k]) && Carries(batches[n], sessionId, entries[k..])
  }

  lemma CarriedExtends(batches: seq<Batch>, b: Batch, sessionId: string, entries: seq<QueuedCommand>)
    requires AllCarried(batches, sessionId, entries)
    ensures AllCarried(batches + [b], sessionId, entries + Entries(b, sessionId))
  {
    EntriesCarry(b, sessionId);
    hide Carries;
    var all := entries + Entries(b, sessionId);
    assert (batches + [b])[..|batches|] == batches;
    assert all[..|entries|] == entries && all[|entries|..] == Entries(b, sessionId);
  }

  /** The engine has a target for the entry: -1 if it is game-wide, otherwise its own, positive unit. */
  predicate Dispatches(e: QueuedCommand) {
    && DispatchTarget(e.target, e.command) == Some(if IsGameWide(e.command.arm) then -1 else e.command.unitId)
    && (!IsGameWide(e.command.arm) ==> e.command.unitId > 0)
  }

  lemma AdmissibleEntriesDispatch(s: Settings, w: World, b: Batch, sessionId: string)
    requires Admissible(s, w, b)
    ensures forall i | 0 <= i < |Entries(b, sessionId)| :: Dispatches(Entries(b, sessionId)[i])
  {
    forall i | 0 <= i < |Entries(b, sessionId)|
      ensures Dispatches(Entries(b, sessionId)[i])
    {
      AcceptedCommandDispatches(s, w, b, i);
      hide IsGameWide;
      hide Admissible;
    }
  }

  /** The command reaches the unit it names, or needs none. */
  predicate Addressed(b: Batch, c: Command) {
    IsGameWide(c.arm) || c.unitId == b.targetUnitId > 0
  }

  /** A coordinator's batch is admitted without looking at its commands: what it queues can be dispatched exactly
      when the sender addressed every command to the target of the batch. */
  lemma AdmittedEntriesDispatch(b: Batch, sessionId: string)
    requires Screened(b).Accepted?
    ensures (forall i | 0 <= i < |b.commands| :: Dispatches(Entries(b, sessionId)[i])) <==>
      (forall i | 0 <= i < |b.commands| :: Addressed(b, b.commands[i]))
  {
    forall i | 0 <= i < |b.commands|
      ensures Dispatches(Entries(b, sessionId)[i]) <==> Addressed(b, b.commands[i])
    {
      SmallTargetIsKept(b.targetUnitId);
      hide IsGameWide;
      var e := Entries(b, sessionId)[i];
      assert e.command == b.commands[i];
    }
  }

  /** So a command for a unit may be admitted that nothing can be done with. */
  lemma AdmittedNeedNotDispatch(b: Batch, c: Command, sessionId: string) returns (b': Batch)
    requires Screened(b).Accepted? && !IsGameWide(c.arm)
    ensures b' == b.(targetUnitId := 0, commands := [c]) && Screened(b').Accepted?
    ensures DispatchTarget(Entries(b', sessionId)[0].target, c).None? && !Dispatches(Entries(b', sessionId)[0])
  {
    b' := b.(targetUnitId := 0, commands := [c]);
    hide IsGameWide;
    SmallTargetIsKept(0);
    assert Entries(b', sessionId)[0].command == c;
  }

  /** Batch numbers start above 0 and rise strictly. */
  ghost predicate Rising(batches: seq<Batch>) {
    && (forall i | 0 <= i < |batches| :: 0 < batches[i].batchSeq)
    && forall i, j | 0 <= i < j < |batches| :: batches[i].batchSeq < batches[j].batchSeq
  }

  function LastSeq(batches: seq<Batch>): nat {
    if batches == [] then 0 else batches[|batches| - 1].batchSeq
  }

  lemma RisingExtends(batches: seq<Batch>, b: Batch)
    requires Rising(batches) && b.batchSeq > LastSeq(batches)
    ensures Rising(batches + [b]) && LastSeq(batches + [b]) == b.batchSeq
  {
  }

  lemma AcceptedExtends(batches: seq<Batch>, b: Batch, sessionId: string)
    ensures AcceptedResults(batches + [b]) ==
            AcceptedResults(batches) + [ResultOf(b, Verdict(BatchAccepted, |b.commands|, None))]
    ensures AllEntries(batches + [b], sessionId) == AllEntries(batches, sessionId) + Entries(b, sessionId)
  {
    assert (batches + [b])[..|batches|] == batches;
  }

  /** What becomes of the next batch. */
  datatype Outcome = Enqueued | Stale | Invalid | Full

  ghost function OutcomeOf(s: Settings, w: World, lastSeen: nat, room: int, b: Batch): Outcome {
    if b.batchSeq <= lastSeen then Stale
    else if !Admissible(s, w, b) then Invalid
    else if |b.commands| > room then Full
    else Enqueued
  }

  /** All that a stream keeps: its stage, its counters, what the client will be told, and, for the record, every
      batch read, those pushed to the queue, and their entries. */
  datatype Progress = Progress(
    stage: Stage,
    lastAccepted: nat,
    lastSeen: nat,
    accepted: nat,
    rejectedInvalid: nat,
    rejectedFull: nat,
    results: seq<BatchResult>,
    received: seq<Batch>,
    enqueued: seq<Batch>,
    pushed: seq<QueuedCommand>
  )

  /** A stream has enqueued a prefix of what it read, and all of it while it is still reading; every entry it has
      pushed can be dispatched. */
  ghost predicate Holds(sessionId: string, p: Progress) {
    && p.enqueued <= p.received && |p.received| <= |p.enqueued| + 1
    && (p.stage.Reading? ==> p.received == p.enqueued)
    && Rising(p.enqueued)
    && p.lastSeen == p.lastAccepted == LastSeq(p.enqueued)
    && p.accepted == |p.enqueued| && p.rejectedInvalid + p.rejectedFull == |p.received| - |p.enqueued|
    && |p.results| == |p.received| && p.results[..|p.enqueued|] == AcceptedResults(p.enqueued)
    && p.pushed == AllEntries(p.enqueued, sessionId) && AllCarried(p.enqueued, sessionId, p.pushed)
    && (forall i | 0 <= i < |p.pushed| :: Dispatches(p.pushed[i]))
  }

  /** The stream after a batch. */
  ghost function Received(sessionId: string, p: Progress, b: Batch, outcome: Outcome, v: Verdict): Progress {
    var q := p.(received := p.received + [b], results := p.results + [ResultOf(b, v)]);
    match outcome
    case Enqueued =>
      q.(lastAccepted := b.batchSeq, lastSeen := b.batchSeq, accepted := p.accepted + 1,
         enqueued := p.enqueued + [b], pushed := p.pushed + Entries(b, sessionId))
    case Full => q.(stage := Finishing, rejectedFull := p.rejectedFull + 1)
    case _ => q.(stage := Finishing, rejectedInvalid := p.rejectedInvalid + 1)
  }

  lemma ReceivedHolds(s: Settings, w: World, room: int, sessionId: string, p: Progress, b: Batch, v: Verdict)
    requires Holds(sessionId, p) && p.stage.Reading?
    requires Judged(s, w, b, OutcomeOf(s, w, p.lastSeen, room, b), v)
    ensures Holds(sessionId, Received(sessionId, p, b, OutcomeOf(s, w, p.lastSeen, room, b), v))
  {
    hide Admissible;
    hide ReportsFirst;
    hide ShapeIssue;
    hide Rising;
    hide LastSeq;
    hide AllCarried;
    hide AcceptedResults;
    hide AllEntries;
    hide Dispatches;
    hide Entries;
    if OutcomeOf(s, w, p.lastSeen, room, b).Enqueued? {
      RisingExtends(p.enqueued, b);
      AdmissibleEntriesDispatch(s, w, b, sessionId);
      AcceptedExtends(p.enqueued, b, sessionId);
      CarriedExtends(p.enqueued, b, sessionId, p.pushed);
    }
  }

  class SubmitStream {
    const settings: Settings
    const sessionId: string
    var stage: Stage
    var lastAcceptedBatchSeq: nat
    var lastSeenBatchSeq: nat
    var batchesAccepted: nat
    var batchesRejectedInvalid: nat
    var batchesRejectedFull: nat
    var results: seq<BatchResult>
    ghost var received: seq<Batch>
    ghost var enqueued: seq<Batch>
    ghost var pushed: seq<QueuedCommand>

    ghost function Now(): Progress
      reads this
    {
      Progress(stage, lastAcceptedBatchSeq, lastSeenBatchSeq, batchesAccepted, batchesRejectedInvalid,
               batchesRejectedFull, results, received, enqueued, pushed)
    }

    ghost predicate Valid()
      reads this
    {
      Holds(sessionId, Now())
    }

    constructor (settings: Settings, sessionId: string)
      ensures Valid() && stage.Reading? && received == []
      ensures this.settings == settings && this.sessionId == sessionId
    {
      this.settings, this.sessionId := settings, sessionId;
      stage := Reading;
      lastAcceptedBatchSeq, lastSeenBatchSeq := 0, 0;
      batchesAccepted, batchesRejectedInvalid, batchesRejectedFull := 0, 0, 0;
      results, received, enqueued, pushed := [], [], [], [];
    }

    /** The end of the client's stream is acknowledged with the running counters and all results. */
    method HandleEndOfStream() returns (ack: Ack)
      requires Valid() && stage.Reading?
      modifies this`stage
      ensures Valid() && stage.Finishing?
      ensures ack == Ack(LastSeq(received), |received|, 0, 0, AcceptedResults(received))
      ensures ack.lastAcceptedBatchSeq == if received == [] then 0 else received[|received| - 1].batchSeq
      ensures |ack.results| == |received| && forall i | 0 <= i < |received| ::
        var result, b := ack.results[i], received[i];
        && result.batchSeq == b.batchSeq && result.clientCommandId == b.clientCommandId
        && result.verdict == Verdict(BatchAccepted, |b.commands|, None)
    {
      ack := Ack(lastAcceptedBatchSeq, batchesAccepted, batchesRejectedInvalid, batchesRejectedFull, results);
      stage := Finishing;
    }

    /** A batch is pushed whole and the stream goes on, or nothing is pushed and the stream ends. */
    method HandleBatch(q: CommandQueue, w: World, b: Batch) returns (close: CloseCode, verdict: Verdict)
      requires Valid() && stage.Reading? && q.Valid()
      modifies this, q
      ensures Valid() && q.Valid() && q.drained == old(q.drained)
      ensures var outcome := OutcomeOf(settings, w, old(lastSeenBatchSeq), q.capacity - |old(q.queue)|, b);
        && Judged(settings, w, b, outcome, verdict)
        && Now() == Received(sessionId, old(Now()), b, outcome, verdict)
        && q.accepted == (if outcome.Enqueued? then old(q.accepted) + [Entries(b, sessionId)] else old(q.accepted))
        && (outcome.Enqueued? <==>
              && b.batchSeq > old(lastSeenBatchSeq) && Admissible(settings, w, b)
              && |old(q.queue)| + |b.commands| <= q.capacity)
        && (outcome.Stale? <==> b.batchSeq <= old(lastSeenBatchSeq))
        && (outcome.Invalid? <==> b.batchSeq > old(lastSeenBatchSeq) && !Admissible(settings, w, b))
        && batchesAccepted == old(batchesAccepted) + (if outcome.Enqueued? then 1 else 0)
        && batchesRejectedFull == old(batchesRejectedFull) + (if outcome.Full? then 1 else 0)
        && batchesRejectedInvalid
           == old(batchesRejectedInvalid) + (if outcome.Stale? || outcome.Invalid? then 1 else 0)
        && (stage.Reading? <==> outcome.Enqueued?)
        && (outcome.Enqueued? ==> Carries(b, sessionId, q.accepted[|q.accepted| - 1]))
        && (close == if outcome.Enqueued? then Ok else if outcome.Full? then ResourceExhausted else InvalidArgument)
    {
      hide Admissible;
      hide Flatten;
      hide Judged;
      hide Holds;
      hide Entries;
      hide Carries;
      ghost var before, room := Now(), q.capacity - |q.queue|;
      var outcome;
      outcome, verdict := Judge(q, w, b);
      ReceivedHolds(settings, w, room, sessionId, before, b, verdict);
      received := received + [b];
      results := results + [ResultOf(b, verdict)];
      match outcome
      case Enqueued =>
        batchesAccepted := batchesAccepted + 1;
        lastAcceptedBatchSeq, lastSeenBatchSeq := b.batchSeq, b.batchSeq;
        enqueued, pushed := enqueued + [b], pushed + Entries(b, sessionId);
        close := Ok;
      case Full =>
        batchesRejectedFull := batchesRejectedFull + 1;
        stage, close := Finishing, ResourceExhausted;
      case _ =>
        batchesRejectedInvalid := batchesRejectedInvalid + 1;
        stage, close := Finishing, InvalidArgument;
    }

    /** Order, validity and room, in this sequence; only a batch that passes all three is pushed. */
    method Judge(q: CommandQueue, w: World, b: Batch) returns (outcome: Outcome, verdict: Verdict)
      requires q.Valid()
      modifies q
      ensures q.Valid() && q.drained == old(q.drained)
      ensures outcome == OutcomeOf(settings, w, lastSeenBatchSeq, q.capacity - |old(q.queue)|, b)
      ensures Judged(settings, w, b, outcome, verdict)
      ensures q.accepted == if outcome.Enqueued? then old(q.accepted) + [Entries(b, sessionId)] else old(q.accepted)
      ensures outcome.Enqueued? ==> Carries(b, sessionId, q.accepted[|q.accepted| - 1])
    {
      hide Admissible;
      hide Flatten;
      hide ReportsFirst;
      hide ShapeIssue;
      hide Entries;
      hide Carries;
      if b.batchSeq <= lastSeenBatchSeq {
        return Stale, Verdict(RejectedStale, 0, Some((StaleOrDuplicateBatchSeq, 0)));
      }
      verdict := ValidateBatch(settings, w, b);
      if !verdict.status.BatchAccepted? {
        return Invalid, verdict;
      }
      var queued := BuildEntries(b, sessionId);
      var fits := q.TryPushBatch(queued);
      if !fits {
        return Full, Verdict(RejectedQueueFull, 0, Some((IssueCode.QueueFull, 0)));
      }
      return Enqueued, verdict;
    }
  }

  // ---- The AI slot ----

  datatype Phase = Created | Open | Closing | Gone

  /** One SubmitCommands call. */
  datatype Call = Call(phase: Phase, claimed: bool, lastSeen: nat)

  datatype Pushed = Pushed(call: nat, batchSeq: nat)

  /** The service: the slot flag, handshakes holding it for a moment, every call ever made, every push. */
  datatype Service = Service(slotTaken: bool, hellos: set<nat>, calls: map<nat, Call>, log: seq<Pushed>)

  datatype Event =
    | HelloClaims(id: nat)
    | HelloReleases(id: nat)
    | Arrives(id: nat)
    | Starts(id: nat, wired: bool)
    | ReadsBatch(id: nat, batchSeq: nat, admitted: bool)
    | ReadsEnd(id: nat)
    | Deleted(id: nat)

  predicate Enabled(s: Service, e: Event) {
    match e
    case HelloClaims(id) => id !in s.hellos
    case HelloReleases(id) => id in s.hellos
    case Arrives(id) => id !in s.calls
    case Starts(id, _) => id in s.calls && s.calls[id].phase.Created?
    case ReadsBatch(id, _, _) => id in s.calls && s.calls[id].phase.Open?
    case ReadsEnd(id) => id in s.calls && s.calls[id].phase.Open?
    case Deleted(id) => id in s.calls && s.calls[id].phase.Closing?
  }

  function Next(s: Service, e: Event): Service
    requires Enabled(s, e)
  {
    match e
    case HelloClaims(id) =>
      if s.slotTaken then s else s.(slotTaken := true, hellos := s.hellos + {id})
    case HelloReleases(id) =>
      s.(slotTaken := false, hellos := s.hellos - {id})
    case Arrives(id) =>
      s.(calls := s.calls[id := Call(Created, false, 0)])
    case Starts(id, wired) =>
      if !wired || s.slotTaken then s.(calls := s.calls[id := s.calls[id].(phase := Closing)])
      else s.(slotTaken := true, calls := s.calls[id := Call(Open, true, 0)])
    case ReadsBatch(id, n, admitted) =>
      if n <= s.calls[id].lastSeen || !admitted then s.(calls := s.calls[id := s.calls[id].(phase := Closing)])
      else s.(calls := s.calls[id := s.calls[id].(lastSeen := n)], log := s.log + [Pushed(id, n)])
    case ReadsEnd(id) =>
      s.(calls := s.calls[id := s.calls[id].(phase := Closing)])
    case Deleted(id) =>
      s.(slotTaken := s.slotTaken && !s.calls[id].claimed,
         calls := s.calls[id := s.calls[id].(phase := Gone, claimed := false)])
  }

  predicate Claims(s: Service, id: nat) {
    id in s.calls && s.calls[id].claimed
  }

  /** The slot is taken exactly when one call or one handshake holds it, and never by two. */
  ghost predicate OneHolder(s: Service) {
    && (s.slotTaken <==> s.hellos != {} || exists c :: Claims(s, c))
    && (forall c, d | Claims(s, c) && Claims(s, d) :: c == d)
    && (forall h, k | h in s.hellos && k in s.hellos :: h == k)
    && (s.hellos != {} ==> forall c :: !Claims(s, c))
  }

  /** Only the claiming call can be open, and its pushes are the newest, below its last number. */
  ghost predicate CallsHold(s: Service) {
    && (forall c | c in s.calls ::
      && (s.calls[c].phase.Open? ==> s.calls[c].claimed)
      && (s.calls[c].phase.Created? || s.calls[c].phase.Gone? ==> !s.calls[c].claimed))
    && (forall i | 0 <= i < |s.log| :: s.log[i].call in s.calls && !s.calls[s.log[i].call].phase.Created?)
    && (forall i | 0 <= i < |s.log| :: s.log[i].batchSeq <= s.calls[s.log[i].call].lastSeen)
    && (forall i, j | 0 <= i < j < |s.log| && Claims(s, s.log[i].call) :: s.log[j].call == s.log[i].call)
  }

  /** The pushes of one call are consecutive and rise strictly. */
  ghost predicate SessionsApart(log: seq<Pushed>) {
    && (forall i, j, k | 0 <= i < j < k < |log| && log[i].call == log[k].call :: log[j].call == log[i].call)
    && (forall i, j | 0 <= i < j < |log| && log[i].call == log[j].call :: log[i].batchSeq < log[j].batchSeq)
  }

  ghost predicate Inv(s: Service) {
    OneHolder(s) && CallsHold(s) && SessionsApart(s.log)
  }

  lemma NextKeepsHolder(s: Service, e: Event)
    requires OneHolder(s) && CallsHold(s) && Enabled(s, e)
    ensures OneHolder(Next(s, e))
  {
    var t := Next(s, e);
    match e
    case HelloClaims(id) =>
      assert forall c :: Claims(t, c) ==> Claims(s, c);
      assert !s.slotTaken ==> id in t.hellos;
    case HelloReleases(id) =>
      assert forall c :: Claims(t, c) ==> Claims(s, c);
    case Arrives(id) =>
      assert forall c :: Claims(t, c) <==> Claims(s, c);
    case Starts(id, wired) =>
      if !wired || s.slotTaken {
        assert forall c :: Claims(t, c) <==> Claims(s, c);
      } else {
        assert Claims(t, id);
        assert forall c :: Claims(t, c) ==> c == id || Claims(s, c);
      }
    case ReadsBatch(id, _, _) =>
      assert forall c :: Claims(t, c) <==> Claims(s, c);
    case ReadsEnd(id) =>
      assert forall c :: Claims(t, c) <==> Claims(s, c);
    case Deleted(id) =>
      assert forall c :: Claims(t, c) <==> Claims(s, c) && c != id;
      if s.calls[id].claimed {
        assert Claims(s, id);
      }
  }

  lemma NextKeepsCalls(s: Service, e: Event)
    requires OneHolder(s) && CallsHold(s) && Enabled(s, e)
    ensures CallsHold(Next(s, e))
  {
    var t := Next(s, e);
    forall i, j | 0 <= i < j < |t.log| && Claims(t, t.log[i].call)
      ensures t.log[j].call == t.log[i].call
    {
      assert i < |s.log|;
      assert Claims(s, s.log[i].call);
      if e.ReadsBatch? {
        assert Claims(s, e.id);
      }
    }
  }

  lemma NextKeepsSessions(s: Service, e: Event)
    requires Inv(s) && Enabled(s, e)
    ensures SessionsApart(Next(s, e).log)
  {
    var t := Next(s, e);
    if t.log != s.log {
      assert Claims(s, e.id);
    }
  }

  lemma NextKeepsInv(s: Service, e: Event)
    requires Inv(s) && Enabled(s, e)
    ensures Inv(Next(s, e))
  {
    NextKeepsHolder(s, e);
    NextKeepsCalls(s, e);
    NextKeepsSessions(s, e);
  }

  const START := Service(false, {}, map[], [])

  ghost predicate IsRun(states: seq<Service>, events: seq<Event>) {
    && |states| == |events| + 1 && states[0] == START
    && forall i | 0 <= i < |events| :: Enabled(states[i], events[i]) && states[i + 1] == Next(states[i], events[i])
  }

  lemma {:induction false} RunsKeepInv(states: seq<Service>, events: seq<Event>, n: nat)
    requires IsRun(states, events) && n < |states|
    ensures Inv(states[n])
  {
    hide Next;
    hide Enabled;
    if n > 0 {
      hide Inv;
      RunsKeepInv(states, events, n - 1);
      NextKeepsInv(states[n - 1], events[n - 1]);
      assert states[n - 1 + 1] == Next(states[n - 1], events[n - 1]);
    }
  }

  predicate IsOpen(s: Service, id: nat) {
    id in s.calls && s.calls[id].phase.Open?
  }

  /** In every run at most one AI stream is open at a time, and the batches of different sessions
      reach the queue one session after another, each in strictly rising order. */
  lemma SessionsNeverInterleave(states: seq<Service>, events: seq<Event>, n: nat)
    requires IsRun(states, events) && n < |states|
    ensures forall c, d :: IsOpen(states[n], c) && IsOpen(states[n], d) ==> c == d
    ensures SessionsApart(states[n].log)
  {
    hide Next;
    hide Enabled;
    RunsKeepInv(states, events, n);
    assert forall c :: IsOpen(states[n], c) ==> Claims(states[n], c);
  }

  /** In every run a call that starts gets the slot, and is open, exactly when it is wired and nobody holds the slot;
      it keeps it until it is deleted. A handshake gets it exactly when nobody holds it, until it releases it. */
  lemma SlotGoesToOneCall(states: seq<Service>, events: seq<Event>, n: nat, id: nat)
    requires IsRun(states, events) && n < |events|
    ensures events[n].Starts? && events[n].id == id ==>
      (IsOpen(states[n + 1], id) <==> events[n].wired && states[n].hellos == {} && forall c :: !Claims(states[n], c))
    ensures id in states[n + 1].hellos <==>
      || (id in states[n].hellos && events[n] != HelloReleases(id))
      || (events[n] == HelloClaims(id) && states[n].hellos == {} && forall c :: !Claims(states[n], c))
    ensures events[n] == ReadsEnd(id) ==> !IsOpen(states[n + 1], id)
    ensures Claims(states[n + 1], id) <==>
      || (Claims(states[n], id) && events[n] != Deleted(id))
      || (events[n] == Starts(id, true) && states[n].hellos == {} && forall c :: !Claims(states[n], c))
  {
    RunsKeepInv(states, events, n);
    assert Enabled(states[n], events[n]) && states[n + 1] == Next(states[n], events[n]);
  }

  ghost predicate LastIsPushed(s: Service) {
    forall c | c in s.calls && s.calls[c].lastSeen != 0 ::
      exists i | 0 <= i < |s.log| :: s.log[i] == Pushed(c, s.calls[c].lastSeen)
  }

  lemma StepKeepsLast(s: Service, e: Event)
    requires LastIsPushed(s) && Enabled(s, e)
    ensures LastIsPushed(Next(s, e))
  {
    var t := Next(s, e);
    forall c | c in t.calls && t.calls[c].lastSeen != 0
      ensures exists i | 0 <= i < |t.log| :: t.log[i] == Pushed(c, t.calls[c].lastSeen)
    {
      if c in s.calls && s.calls[c].lastSeen == t.calls[c].lastSeen {
        var i :| 0 <= i < |s.log| && s.log[i] == Pushed(c, s.calls[c].lastSeen);
        assert t.log[i] == s.log[i];
      } else {
        assert t.log[|s.log|] == Pushed(c, t.calls[c].lastSeen);
      }
    }
  }

  lemma {:induction false} RunsKeepLast(states: seq<Service>, events: seq<Event>, n: nat)
    requires IsRun(states, events) && n < |states|
    ensures LastIsPushed(states[n])
  {
    hide Next;
    hide Enabled;
    if n > 0 {
      hide LastIsPushed;
      RunsKeepLast(states, events, n - 1);
      StepKeepsLast(states[n - 1], events[n - 1]);
      assert states[n - 1 + 1] == Next(states[n - 1], events[n - 1]);
    }
  }

  /** In every run a batch an open call reads is pushed, and the call stays open, exactly when it is admitted and its
      number is above 0 and above all the call has pushed; nothing else is ever pushed. */
  lemma PushIsExact(states: seq<Service>, events: seq<Event>, n: nat)
    requires IsRun(states, events) && n < |events|
    ensures !events[n].ReadsBatch? ==> states[n + 1].log == states[n].log
    ensures events[n].ReadsBatch? ==>
      var ReadsBatch(id, batchSeq, admitted) := events[n];
      var log := states[n].log;
      var fits := admitted && batchSeq > 0
        && (forall i | 0 <= i < |log| && log[i].call == id :: log[i].batchSeq < batchSeq);
      && (IsOpen(states[n + 1], id) <==> fits)
      && states[n + 1].log == if fits then log + [Pushed(id, batchSeq)] else log
  {
    RunsKeepInv(states, events, n);
    RunsKeepLast(states, events, n);
    assert Enabled(states[n], events[n]) && states[n + 1] == Next(states[n], events[n]);
    if events[n].ReadsBatch? {
      var id, log := events[n].id, states[n].log;
      if states[n].calls[id].lastSeen != 0 {
        var i :| 0 <= i < |log| && log[i] == Pushed(id, states[n].calls[id].lastSeen);
      }
    }
  }
}
