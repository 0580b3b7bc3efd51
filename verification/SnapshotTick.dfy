/** The adaptive cadence of periodic snapshots. */
module SnapshotCadence {
  import opened Basics

  const MAX_EFFECTIVE_CADENCE := 1024

  datatype Config = Config(cadence: uint32, maxUnits: uint32)

  /** The bounds the configuration reader enforces. */
  predicate Accepted(c: Config) {
    1 <= c.cadence <= 1024 && 1 <= c.maxUnits <= 100000
  }

  datatype Tick = Tick(effective: uint32, next: uint32, pending: bool)

  datatype Pumped = Silent | Emit(cadence: uint32, forced: bool)

  function Min(a: nat, b: nat): nat {
    if a <= b then a else b
  }

  function Configured(c: Config): Tick {
    Tick(c.cadence, c.cadence, false)
  }

  /** Emissions over the unit cap double the cadence up to the maximum, others fall back to the base. */
  function NextCadence(c: Config, effective: uint32, units: nat): uint32 {
    if units > c.maxUnits then Min(2 * effective, MAX_EFFECTIVE_CADENCE)
    else Min(effective, c.cadence)
  }

  function Decision(t: Tick, frame: uint32): Pumped {
    if t.pending || frame >= t.next then Emit(t.effective, t.pending) else Silent
  }

  function After(c: Config, t: Tick, frame: uint32, units: nat): Tick {
    if Decision(t, frame).Silent? then t.(pending := false)
    else
      var effective := NextCadence(c, t.effective, units);
      Tick(effective, (frame + effective) % UINT32_LIMIT, false)
  }

  class SnapshotTick {
    var config: Config
    var effectiveCadenceFrames: uint32
    var nextSnapshotFrame: uint32
    var pendingRequest: bool

    function Now(): Tick
      reads this
    {
      Tick(effectiveCadenceFrames, nextSnapshotFrame, pendingRequest)
    }

    constructor (c: Config)
      ensures config == c && Now() == Configured(c)
    {
      config, pendingRequest := c, false;
      effectiveCadenceFrames, nextSnapshotFrame := c.cadence, c.cadence;
    }

    /** A request for a snapshot; requests until the next pump coalesce. */
    method RequestSnapshot()
      modifies this`pendingRequest
      ensures Now() == old(Now()).(pending := true)
    {
      pendingRequest := true;
    }

    /** One frame. The 32-bit doubling with its overflow guard is exact for every cadence. */
    method Pump(frame: uint32, units: nat) returns (out: Pumped)
      modifies this
      ensures config == old(config)
      ensures out == Decision(old(Now()), frame)
      ensures Now() == After(config, old(Now()), frame, units)
    {
      var forced := pendingRequest;
      pendingRequest := false;
      var cadenceDue := frame >= nextSnapshotFrame;
      if !forced && !cadenceDue {
        return Silent;
      }
      out := Emit(effectiveCadenceFrames, forced);
      if units > config.maxUnits {
        var doubled := effectiveCadenceFrames * 2 % UINT32_LIMIT;
        if doubled < effectiveCadenceFrames {
          doubled := MAX_EFFECTIVE_CADENCE;
        }
        if doubled > MAX_EFFECTIVE_CADENCE {
          doubled := MAX_EFFECTIVE_CADENCE;
        }
        effectiveCadenceFrames := doubled;
      } else if effectiveCadenceFrames > config.cadence {
        effectiveCadenceFrames := config.cadence;
      }
      nextSnapshotFrame := (frame + effectiveCadenceFrames) % UINT32_LIMIT;
    }
  }

  // ---- Whole matches: one pump per frame from frame 0 ----

  /** Whether a request came in before the frame, and how many units the team has in it. */
  datatype Frame = Frame(requested: bool, units: nat)

  /** Frames are counted in 32 bits; the last deadline must still fit. */
  predicate Countable(frames: seq<Frame>) {
    |frames| + MAX_EFFECTIVE_CADENCE < UINT32_LIMIT
  }

  function AtPump(c: Config, frames: seq<Frame>, f: Frame): Tick
    requires Countable(frames)
  {
    var t := TickAfter(c, frames);
    t.(pending := t.pending || f.requested)
  }

  /** The scheduler after pumping these frames. */
  function TickAfter(c: Config, frames: seq<Frame>): Tick
    requires Countable(frames)
    decreases |frames|, 0
  {
    if frames == [] then Configured(c)
    else
      var n := |frames| - 1;
      var t := TickAfter(c, frames[..n]);
      After(c, t.(pending := t.pending || frames[n].requested), n, frames[n].units)
  }

  /** What the pump of frame n decides. */
  function Output(c: Config, frames: seq<Frame>, n: nat): Pumped
    requires Countable(frames) && n < |frames|
  {
    Decision(AtPump(c, frames[..n], frames[n]), n)
  }

  /** The frame of the last emission; 0 before the first. */
  function LastEmission(c: Config, frames: seq<Frame>): nat
    requires Countable(frames)
  {
    if frames == [] then 0
    else
      var n := |frames| - 1;
      if Output(c, frames, n).Emit? then n else LastEmission(c, frames[..n])
  }

  /** How many emissions at the end of the match so far were over the cap. */
  function OverCapStreak(c: Config, frames: seq<Frame>): nat
    requires Countable(frames)
  {
    if frames == [] then 0
    else
      var n := |frames| - 1;
      var streak := OverCapStreak(c, frames[..n]);
      if Output(c, frames, n).Silent? then streak
      else if frames[n].units > c.maxUnits then streak + 1
      else 0
  }

  function Pow2(k: nat): nat {
    if k == 0 then 1 else 2 * Pow2(k - 1)
  }

  /** The cadence after k over-cap emissions in a row. */
  function Backoff(base: nat, k: nat): nat {
    Min(base * Pow2(k), MAX_EFFECTIVE_CADENCE)
  }

  lemma BackoffDoubles(base: nat, k: nat)
    requires base <= MAX_EFFECTIVE_CADENCE
    ensures Backoff(base, 0) == base
    ensures Backoff(base, k + 1) == Min(2 * Backoff(base, k), MAX_EFFECTIVE_CADENCE)
  {
    assert base * Pow2(k + 1) == 2 * (base * Pow2(k));
  }

  lemma BackoffIsCapped(base: nat, k: nat)
    ensures Backoff(base, k) == Min(base * Pow2(k), 1024)
  {
  }

  lemma {:induction false} BackoffBounds(base: nat, k: nat)
    requires 1 <= base <= MAX_EFFECTIVE_CADENCE
    ensures base <= Backoff(base, k) <= MAX_EFFECTIVE_CADENCE
  {
    BackoffDoubles(base, 0);
    if k > 0 {
      BackoffBounds(base, k - 1);
      BackoffDoubles(base, k - 1);
    }
  }

  lemma {:induction false} CadenceFollows(c: Config, frames: seq<Frame>)
    requires Accepted(c) && Countable(frames)
    ensures var t := TickAfter(c, frames);
      && t.effective == Backoff(c.cadence, OverCapStreak(c, frames))
      && c.cadence <= t.effective <= MAX_EFFECTIVE_CADENCE
      && t.next == LastEmission(c, frames) + t.effective
      && |frames| <= t.next && !t.pending
      && (LastEmission(c, frames) < |frames| || frames == [])
  {
    hide Backoff;
    BackoffBounds(c.cadence, OverCapStreak(c, frames));
    BackoffDoubles(c.cadence, 0);
    if frames != [] {
      var n := |frames| - 1;
      CadenceFollows(c, frames[..n]);
      BackoffDoubles(c.cadence, OverCapStreak(c, frames[..n]));
      BackoffBounds(c.cadence, OverCapStreak(c, frames[..n]));
    }
  }

  /** At every frame the cadence in effect is the base doubled once per over-cap emission of the
      current streak, up to 1024; the deadline lies that far behind the last emission and has not passed. */
  lemma CadenceIsBackoff(c: Config, frames: seq<Frame>)
    requires Accepted(c) && Countable(frames)
    ensures var t := TickAfter(c, frames);
      && t.effective == Min(c.cadence * Pow2(OverCapStreak(c, frames)), 1024)
      && c.cadence <= t.effective <= 1024
      && t.next == LastEmission(c, frames) + t.effective
      && |frames| <= t.next && !t.pending
      && (LastEmission(c, frames) < |frames| || frames == [])
  {
    hide Backoff;
    hide TickAfter;
    CadenceFollows(c, frames);
    BackoffIsCapped(c.cadence, OverCapStreak(c, frames));
  }

  /** A frame emits exactly when it was requested or lies one cadence behind the last emission. No
      emission is more than 1024 frames behind the one before, and an unforced one carries the exact
      distance. */
  lemma EmissionsAreTimely(c: Config, frames: seq<Frame>, n: nat)
    requires Accepted(c) && Countable(frames) && n < |frames|
    ensures var last := LastEmission(c, frames[..n]);
      var due := last + Min(c.cadence * Pow2(OverCapStreak(c, frames[..n])), 1024);
      && (Output(c, frames, n).Emit? <==> frames[n].requested || n == due)
      && n <= due <= last + 1024
      && (Output(c, frames, n).Emit? ==> Output(c, frames, n).forced == frames[n].requested)
      && (Output(c, frames, n).Emit? && !frames[n].requested ==> Output(c, frames, n).cadence == n - last)
  {
    CadenceIsBackoff(c, frames[..n]);
  }

  /** So every window of 1024 frames holds an emission. */
  lemma {:induction false} EveryWindowEmits(c: Config, frames: seq<Frame>, from: nat)
    requires Accepted(c) && Countable(frames) && from + 1024 <= |frames| && from > 0
    ensures exists n | from <= n < from + 1024 :: Output(c, frames, n).Emit?
  {
    var end := from + 1024;
    var part := frames[..end];
    CadenceIsBackoff(c, part);
    var last := LastEmission(c, part);
    assert last >= from by {
      CadenceIsBackoff(c, part);
    }
    LastEmissionEmits(c, part);
    assert Output(c, part, last).Emit?;
    assert part[..last] == frames[..last];
    assert Output(c, frames, last).Emit?;
  }

  lemma {:induction false} LastEmissionEmits(c: Config, frames: seq<Frame>)
    requires Countable(frames)
    ensures LastEmission(c, frames) > 0 ==>
      LastEmission(c, frames) < |frames| && Output(c, frames, LastEmission(c, frames)).Emit?
  {
    if frames != [] {
      var n := |frames| - 1;
      if Output(c, frames, n).Silent? {
        LastEmissionEmits(c, frames[..n]);
        var last := LastEmission(c, frames[..n]);
        assert frames[..n][..last] == frames[..last];
      }
    }
  }
}
