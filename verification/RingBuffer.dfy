/** The resume-history ring: the last `capacity` updates, addressed by sequence number. */
module StreamRing {
  import opened Basics

  const U64: nat := 0x1_0000_0000_0000_0000

  datatype Entry = Entry(seqNo: nat, payload: string)

  // ---- What a ring holds, as a function of everything ever pushed ----

  /** Numbers rise strictly, but for zeros at the start: head number 0 does not tell an empty ring from zeros. */
  ghost predicate Rising(history: seq<Entry>) {
    && (forall i | 0 <= i < |history| :: history[i].seqNo < U64)
    && (forall i, j | 0 <= i < j < |history| ::
          history[i].seqNo < history[j].seqNo || history[i].seqNo == history[j].seqNo == 0)
  }

  function HeadSeq(history: seq<Entry>): nat {
    if history == [] then 0 else history[|history| - 1].seqNo
  }

  function Filled(history: seq<Entry>, capacity: nat): nat {
    if |history| < capacity then |history| else capacity
  }

  /** What the oldest number would be without gaps; below 0 it wraps around. */
  function TailSeq(head: nat, filled: nat): int {
    if head + 1 >= filled then head + 1 - filled else head + 1 - filled + U64
  }

  /** The answer to "everything newer than fromSeq": a suffix of the history, or nothing. */
  function Replay(history: seq<Entry>, capacity: nat, fromSeq: nat): Option<seq<Entry>> {
    var n, head := |history|, HeadSeq(history);
    if n == 0 || (fromSeq + 1) % U64 < TailSeq(head, Filled(history, capacity)) || fromSeq > head then None
    else if head - fromSeq <= n then Some(history[n - (head - fromSeq)..])
    else None
  }

  /** It is computed in 64 bits. */
  lemma TailWraps(head: nat, filled: nat)
    requires head < U64 && 0 < filled < U64
    ensures TailSeq(head, filled) == (head - (filled - 1)) % U64
  {
  }

  /** Positive numbers grow at least as fast as positions. */
  lemma {:induction false} SeqNoBound(history: seq<Entry>, i: nat)
    requires Rising(history) && i < |history| && history[i].seqNo > 0
    ensures history[i].seqNo + (|history| - 1 - i) <= HeadSeq(history)
    decreases |history|
  {
    var n := |history| - 1;
    if i < n {
      SeqNoBound(history[..n], i);
      assert history[n - 1] == history[..n][n - 1];
    }
  }

  /** An answer is never longer than what the ring holds. */
  lemma ReplayIsHeld(history: seq<Entry>, capacity: nat, fromSeq: nat)
    requires Rising(history) && fromSeq < U64 && capacity < U64 && history != []
    requires (fromSeq + 1) % U64 >= TailSeq(HeadSeq(history), Filled(history, capacity)) && fromSeq <= HeadSeq(history)
    requires capacity > 0
    ensures HeadSeq(history) - fromSeq <= Filled(history, capacity)
  {
  }

  /** Whatever gaps the numbers have, an answer is a suffix of the history that holds every
      entry newer than fromSeq, and nothing in it has been overwritten. */
  lemma ReplayIsComplete(history: seq<Entry>, capacity: nat, fromSeq: nat)
    requires Rising(history) && fromSeq < U64 && 0 < capacity < U64 && Replay(history, capacity, fromSeq).Some?
    ensures var r := Replay(history, capacity, fromSeq).value;
      && |r| <= Filled(history, capacity)
      && r == history[|history| - |r|..]
      && forall i | 0 <= i < |history| && history[i].seqNo > fromSeq :: i >= |history| - |r|
  {
    ReplayIsHeld(history, capacity, fromSeq);
    forall i | 0 <= i < |history| && history[i].seqNo > fromSeq
      ensures i >= |history| - (HeadSeq(history) - fromSeq)
    {
      SeqNoBound(history, i);
    }
  }

  ghost predicate Consecutive(history: seq<Entry>) {
    forall i | 0 <= i < |history| :: history[i].seqNo == i + 1
  }

  /** With numbers 1, 2, 3, ... the answer is exactly (fromSeq, head]. There is none exactly when
      the ring is empty, fromSeq is ahead of the head, or a newer entry was overwritten, or
      fromSeq + 1 wraps around. */
  lemma ReplayIsExact(history: seq<Entry>, capacity: nat, fromSeq: nat)
    requires Consecutive(history) && fromSeq < U64
    ensures Replay(history, capacity, fromSeq) ==
      if history == [] || fromSeq > |history| || Overwritten(history, capacity, fromSeq) || fromSeq == U64 - 1 then None
      else Some(history[fromSeq..])
  {
    if fromSeq < |history| - capacity {
      assert history[fromSeq].seqNo > fromSeq;
    }
  }

  /** An entry newer than fromSeq has left the ring. */
  ghost predicate Overwritten(history: seq<Entry>, capacity: nat, fromSeq: nat) {
    exists i | 0 <= i < |history| - capacity :: history[i].seqNo > fromSeq
  }

  // ---- The ring itself ----

  /** Where the k-th newest entry is. */
  function Slot(head: nat, capacity: nat, k: nat): int {
    if k < head then head - 1 - k else head - 1 - k + capacity
  }

  lemma WrapOnce(x: nat, c: nat)
    requires 0 < c && x < 2 * c
    ensures x % c == if x < c then x else x - c
  {
    if x >= c {
      assert x == c * 1 + (x - c);
      assert x / c == 1;
    }
  }

  function Next(i: nat, capacity: nat): (r: nat)
    requires i < capacity
    ensures r == if i + 1 < capacity then i + 1 else 0
  {
    WrapOnce(i + 1, capacity);
    (i + 1) % capacity
  }

  function Previous(i: nat, capacity: nat): (r: nat)
    requires i < capacity
    ensures r == if i > 0 then i - 1 else capacity - 1
  {
    WrapOnce(i + capacity - 1, capacity);
    (i + capacity - 1) % capacity
  }

  lemma SlotsShift(head: nat, capacity: nat)
    requires head < capacity
    ensures Slot(Next(head, capacity), capacity, 0) == head
    ensures forall k | 0 < k < capacity ::
      0 <= Slot(Next(head, capacity), capacity, k) == Slot(head, capacity, k - 1) < capacity
      && Slot(head, capacity, k - 1) != head
  {
  }

  function Reversed<T>(s: seq<T>): seq<T> {
    seq(|s|, i requires 0 <= i < |s| => s[|s| - 1 - i])
  }

  lemma NewestReversed(history: seq<Entry>, out: seq<Entry>)
    requires |out| <= |history| && forall j | 0 <= j < |out| :: out[j] == history[|history| - 1 - j]
    ensures Reversed(out) == history[|history| - |out|..]
  {
  }

  class RingBuffer {
    const capacity: nat
    const entries: array<Entry>
    var head: nat
    var filled: nat
    var headSeq: nat
    /** Everything ever pushed. */
    ghost var history: seq<Entry>

    ghost predicate Valid()
      reads this, entries
    {
      && 0 < capacity == entries.Length && capacity < U64 && head < capacity
      && Rising(history)
      && filled == Filled(history, capacity)
      && headSeq == HeadSeq(history)
      && forall k | 0 <= k < filled :: entries[Slot(head, capacity, k)] == history[|history| - 1 - k]
    }

    constructor (capacity: nat)
      requires 0 < capacity < U64
      ensures Valid() && history == [] && this.capacity == capacity && fresh(entries)
    {
      this.capacity := capacity;
      entries := new Entry[capacity];
      head, filled, headSeq := 0, 0, 0;
      history := [];
    }

    /** A number that does not exceed a positive last one is refused and changes nothing. */
    method Push(seqNo: nat, payload: string) returns (ok: bool)
      requires Valid() && seqNo < U64
      modifies this`head, this`filled, this`headSeq, this`history, entries
      ensures Valid()
      ensures ok <==> HeadSeq(old(history)) == 0 || seqNo > HeadSeq(old(history))
      ensures history == if ok then old(history) + [Entry(seqNo, payload)] else old(history)
    {
      if headSeq != 0 && seqNo <= headSeq {
        return false;
      }
      hide Next;
      SlotsShift(head, capacity);
      entries[head] := Entry(seqNo, payload);
      head := Next(head, capacity);
      if filled < capacity {
        filled := filled + 1;
      }
      headSeq := seqNo;
      history := history + [Entry(seqNo, payload)];
      ok := true;
    }

    /** Copies backward from the newest entry, then reverses, so that callers see oldest first. */
    method CopyNewest(count: nat) returns (r: seq<Entry>)
      requires Valid() && count <= filled
      ensures r == history[|history| - count..]
    {
      hide Previous;
      hide Rising;
      hide Reversed;
      var out: seq<Entry> := [];
      var idx := Previous(head, capacity);
      for i := 0 to count
        invariant |out| == i && forall j | 0 <= j < i :: out[j] == history[|history| - 1 - j]
        invariant i < count ==> idx == Slot(head, capacity, i)
        invariant idx < capacity
      {
        out := out + [entries[idx]];
        idx := Previous(idx, capacity);
      }
      NewestReversed(history, out);
      r := Reversed(out);
    }

    method GetFromSeq(fromSeq: nat) returns (r: Option<seq<Entry>>)
      requires Valid() && fromSeq < U64
      ensures r == Replay(history, capacity, fromSeq)
    {
      if filled == 0 {
        return None;
      }
      TailWraps(headSeq, filled);
      var tailSeq := (headSeq - (filled - 1)) % U64;
      if (fromSeq + 1) % U64 < tailSeq {
        return None;
      }
      if fromSeq > headSeq {
        return None;
      }
      if fromSeq == headSeq {
        assert history[|history|..] == [];
        return Some([]);
      }
      ReplayIsHeld(history, capacity, fromSeq);
      var out := CopyNewest(headSeq - fromSeq);
      return Some(out);
    }
  }
}
