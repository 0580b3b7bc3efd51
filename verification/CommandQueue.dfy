/** The bounded queue between the workers that accept batches and the engine that drains them. */
module CommandQueues {
  import opened Commands

  datatype QueuedCommand = QueuedCommand(
    sessionId: string,
    batchSeq: nat,
    clientCommandId: nat,
    commandIndex: nat,
    target: int,
    command: Command
  )

  /** The queue entries of a batch: every command in order, with its index and full provenance. */
  function Entries(b: Batch, sessionId: string): (entries: seq<QueuedCommand>)
    ensures |entries| == |b.commands|
  {
    seq(|b.commands|, i requires 0 <= i < |b.commands| => QueuedCommand(
      sessionId,
      b.batchSeq,
      if b.clientCommandId.Some? then b.clientCommandId.value else 0,
      i,
      ToInt32(b.targetUnitId),
      b.commands[i]))
  }

  /** One entry per command of the batch, in order: entry i has index i and command i, and every entry names the
      session, the batch, the client's command and, within 32 signed bits, the target. */
  predicate Carries(b: Batch, sessionId: string, entries: seq<QueuedCommand>) {
    && |entries| == |b.commands|
    && forall i | 0 <= i < |entries| ::
         && entries[i].commandIndex == i && entries[i].command == b.commands[i]
         && entries[i].sessionId == sessionId && entries[i].batchSeq == b.batchSeq
         && entries[i].clientCommandId == (match b.clientCommandId case Some(id) => id case None => 0)
         && (b.targetUnitId < 0x8000_0000 ==> entries[i].target == b.targetUnitId)
  }

  lemma EntriesCarry(b: Batch, sessionId: string)
    ensures Carries(b, sessionId, Entries(b, sessionId))
  {
    if b.targetUnitId < INT32_LIMIT {
      SmallTargetIsKept(b.targetUnitId);
    }
  }

  lemma SmallTargetIsKept(n: nat)
    requires n < INT32_LIMIT
    ensures ToInt32(n) == n
  {
  }

  function Flatten<T>(batches: seq<seq<T>>): seq<T> {
    if batches == [] then [] else Flatten(batches[..|batches| - 1]) + batches[|batches| - 1]
  }

  /** How many entries lie in front of batch k. */
  function Before<T>(batches: seq<seq<T>>, k: nat): nat
    requires k <= |batches|
  {
    |Flatten(batches[..k])|
  }

  /** In the concatenation every batch is contiguous and in order. */
  lemma {:induction false} BatchIsContiguous<T>(batches: seq<seq<T>>, k: nat)
    requires k < |batches|
    ensures Before(batches, k) + |batches[k]| <= |Flatten(batches)|
    ensures Flatten(batches)[Before(batches, k)..Before(batches, k) + |batches[k]|] == batches[k]
  {
    var n := |batches| - 1;
    if k < n {
      BatchIsContiguous(batches[..n], k);
      assert batches[..n][..k] == batches[..k];
      var at := Before(batches, k);
      assert Flatten(batches)[at..at + |batches[k]|] == Flatten(batches[..n])[at..at + |batches[k]|];
    }
  }

  /** Wherever a batch lies in what was ever queued, its entries read 0, 1, 2, ... from the first command to the
      last. */
  lemma QueueReadsBatch(accepted: seq<seq<QueuedCommand>>, k: nat, b: Batch, sessionId: string, i: nat)
    requires k < |accepted| && Carries(b, sessionId, accepted[k]) && i < |b.commands|
    ensures Before(accepted, k) + i < |Flatten(accepted)|
    ensures var e := Flatten(accepted)[Before(accepted, k) + i];
      && e.commandIndex == i && e.command == b.commands[i]
      && e.sessionId == sessionId && e.batchSeq == b.batchSeq
  {
    BatchIsContiguous(accepted, k);
    var at := Before(accepted, k);
    assert Flatten(accepted)[at..at + |accepted[k]|][i] == Flatten(accepted)[at + i];
  }

  class CommandQueue {
    const capacity: nat
    var queue: seq<QueuedCommand>
    /** The exported depth counter. */
    var depth: nat
    /** Accepted batches in order, and everything drained. */
    ghost var accepted: seq<seq<QueuedCommand>>
    ghost var drained: seq<QueuedCommand>

    /** Nothing accepted is lost, repeated or reordered, and the bound holds. */
    ghost predicate Valid()
      reads this
    {
      drained + queue == Flatten(accepted) && |queue| <= capacity && depth == |queue|
    }

    constructor (capacity: nat)
      ensures Valid() && this.capacity == capacity && accepted == [] && queue == [] && drained == []
    {
      this.capacity := capacity;
      queue, depth, accepted, drained := [], 0, [], [];
    }

    method TryPush(c: QueuedCommand) returns (ok: bool)
      requires Valid()
      modifies this
      ensures Valid() && drained == old(drained)
      ensures ok <==> |old(queue)| < capacity
      ensures accepted == old(accepted) + if ok then [[c]] else []
      ensures queue == old(queue) + if ok then [c] else []
    {
      if |queue| >= capacity {
        return false;
      }
      queue := queue + [c];
      depth := |queue|;
      accepted := accepted + [[c]];
      return true;
    }

    /** All of the batch or none of it. */
    method TryPushBatch(cs: seq<QueuedCommand>) returns (ok: bool)
      requires Valid()
      modifies this
      ensures Valid() && drained == old(drained)
      ensures ok <==> |old(queue)| + |cs| <= capacity
      ensures accepted == old(accepted) + if ok then [cs] else []
      ensures queue == old(queue) + if ok then cs else []
    {
      if |cs| > capacity - |queue| {
        return false;
      }
      for i := 0 to |cs|
        invariant queue == old(queue) + cs[..i]
        invariant drained == old(drained) && accepted == old(accepted)
      {
        queue := queue + [cs[i]];
      }
      assert cs[..|cs|] == cs;
      depth := |queue|;
      accepted := accepted + [cs];
      return true;
    }

    /** Moves up to max entries out of the front; 0 stands for all. */
    method Drain(max: nat) returns (out: seq<QueuedCommand>)
      requires Valid()
      modifies this
      ensures Valid() && accepted == old(accepted)
      ensures out + queue == old(queue) && drained == old(drained) + out
      ensures |out| == if max == 0 || max > |old(queue)| then |old(queue)| else max
    {
      var budget := if max == 0 || max > |queue| then |queue| else max;
      out := [];
      for i := 0 to budget
        invariant |out| == i && out + queue == old(queue)
        invariant drained == old(drained) && accepted == old(accepted)
      {
        out := out + [queue[0]];
        queue := queue[1..];
      }
      depth := |queue|;
      drained := drained + out;
    }
  }

  // ---- Admission of coordinator batches ----

  const MAX_COORDINATOR_BATCH := 64

  datatype Admission =
    | Accepted
    | InvalidEmpty
    | InvalidOversized
    | InvalidTarget
    | InvalidBatchSequence
    | InvalidCorrelation
    | QueueFull

  /** The first rule a batch breaks; Accepted stands for none. */
  function Screened(b: Batch): Admission {
    if |b.commands| == 0 then InvalidEmpty
    else if |b.commands| > MAX_COORDINATOR_BATCH then InvalidOversized
    else if b.targetUnitId >= INT32_LIMIT then InvalidTarget
    else if b.batchSeq == 0 then InvalidBatchSequence
    else if b.clientCommandId.None? || b.clientCommandId.value == 0 then InvalidCorrelation
    else Accepted
  }

  /** Admits a batch whole, or changes nothing. */
  method AdmitCommandBatch(q: CommandQueue, b: Batch, sessionId: string) returns (status: Admission, count: nat)
    requires q.Valid()
    modifies q
    ensures q.Valid() && q.drained == old(q.drained)
    ensures status == if !Screened(b).Accepted? then Screened(b)
                      else if |old(q.queue)| + |b.commands| <= q.capacity then Accepted else QueueFull
    ensures status.Accepted? <==>
      && 0 < |b.commands| <= 64 && b.targetUnitId < 0x8000_0000 && b.batchSeq != 0
      && b.clientCommandId.Some? && b.clientCommandId.value != 0
      && |old(q.queue)| + |b.commands| <= q.capacity
    ensures status.Accepted? ==> count == |b.commands| && q.accepted == old(q.accepted) + [Entries(b, sessionId)]
    ensures status.Accepted? ==> Carries(b, sessionId, q.accepted[|q.accepted| - 1])
    ensures !status.Accepted? ==> count == 0 && q.queue == old(q.queue) && q.accepted == old(q.accepted)
  {
    if |b.commands| == 0 {
      return InvalidEmpty, 0;
    }
    if |b.commands| > MAX_COORDINATOR_BATCH {
      return InvalidOversized, 0;
    }
    if b.targetUnitId > INT32_LIMIT - 1 {
      return InvalidTarget, 0;
    }
    if b.batchSeq == 0 {
      return InvalidBatchSequence, 0;
    }
    if b.clientCommandId.None? || b.clientCommandId.value == 0 {
      return InvalidCorrelation, 0;
    }
    var queued := BuildEntries(b, sessionId);
    var ok := q.TryPushBatch(queued);
    if !ok {
      return QueueFull, 0;
    }
    return Accepted, |b.commands|;
  }

  method BuildEntries(b: Batch, sessionId: string) returns (queued: seq<QueuedCommand>)
    ensures queued == Entries(b, sessionId) && Carries(b, sessionId, queued)
  {
    EntriesCarry(b, sessionId);
    queued := [];
    for i := 0 to |b.commands|
      invariant queued == Entries(b, sessionId)[..i]
    {
      var id := if b.clientCommandId.Some? then b.clientCommandId.value else 0;
      queued := queued + [QueuedCommand(sessionId, b.batchSeq, id, i, ToInt32(b.targetUnitId), b.commands[i])];
    }
  }
}
