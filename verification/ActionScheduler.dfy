/** The staggered round robin over a team's units. */
module ActionScheduling {

  type UnitId = nat

  /** What the scheduler sees when it looks at a unit. */
  datatype Status = Dead | Player | Active

  /** One look at a unit: dead ones are deleted, active ones updated, player's ones passed over. */
  datatype Visit = Visit(unit: UnitId, status: Status)

  const ACTION_UPDATE_RATE := 32

  datatype Turn = Turn(units: seq<UnitId>, cursor: nat)

  /** How many updates one call may make. */
  function Quota(size: nat): nat {
    size / ACTION_UPDATE_RATE + 1
  }

  function Seen(visits: seq<Visit>): seq<UnitId> {
    seq(|visits|, i requires 0 <= i < |visits| => visits[i].unit)
  }

  function Survivors(visits: seq<Visit>): seq<UnitId> {
    if visits == [] then []
    else
      var last := visits[|visits| - 1];
      Survivors(visits[..|visits| - 1]) + if last.status.Dead? then [] else [last.unit]
  }

  function Updates(visits: seq<Visit>): nat {
    if visits == [] then 0
    else Updates(visits[..|visits| - 1]) + if visits[|visits| - 1].status.Active? then 1 else 0
  }

  function Start(t: Turn): nat {
    if t.cursor >= |t.units| then 0 else t.cursor
  }

  /** The units that the updates added, in order. spawn(k, u) are those that the update of u at the k-th look adds. */
  function Spawned(visits: seq<Visit>, spawn: (nat, UnitId) -> seq<UnitId>): seq<UnitId> {
    if visits == [] then []
    else
      var n := |visits| - 1;
      Spawned(visits[..n], spawn) + if visits[n].status.Active? then spawn(n, visits[n].unit) else []
  }

  /** From s, having made these visits, the scheduler stands at t: units in front of the start are untouched,
      survivors keep their order, and the visits with the units still ahead are exactly those there were and
      those that were added. */
  ghost predicate Advanced(s: Turn, t: Turn, visits: seq<Visit>, added: seq<UnitId>) {
    var start := Start(s);
    && start <= t.cursor <= |t.units|
    && t.units[..t.cursor] == s.units[..start] + Survivors(visits)
    && multiset(Seen(visits)) + multiset(t.units[t.cursor..]) == multiset(s.units[start..]) + multiset(added)
    && |t.units| + |visits| - |Survivors(visits)| == |s.units| + |added|
  }

  /** One whole call: the quota is used up unless the end of the list is reached. */
  ghost predicate Called(s: Turn, t: Turn, visits: seq<Visit>, added: seq<UnitId>) {
    && Advanced(s, t, visits, added)
    && Updates(visits) <= Quota(|s.units|)
    && (t.cursor < |t.units| ==> Updates(visits) == Quota(|s.units|))
  }

  /** How many looks found this. */
  ghost function Looks(visits: seq<Visit>, status: Status): nat {
    |set k | 0 <= k < |visits| && visits[k].status == status|
  }

  /** One whole call in numbers: it updates at most one unit more than a 32nd of those there were, and no fewer unless
      it reaches the end; it removes exactly the dead ones. */
  ghost predicate CalledInNumbers(s: Turn, t: Turn, visits: seq<Visit>, added: nat) {
    && 32 * (Looks(visits, Active) - 1) <= |s.units|
    && (t.cursor < |t.units| ==> 32 * Looks(visits, Active) > |s.units|)
    && |t.units| == |s.units| + added - Looks(visits, Dead)
  }

  lemma LooksSnoc(visits: seq<Visit>, v: Visit, status: Status)
    ensures Looks(visits + [v], status) == Looks(visits, status) + if v.status == status then 1 else 0
  {
    var before := set k | 0 <= k < |visits| && visits[k].status == status;
    var after := set k | 0 <= k < |visits + [v]| && (visits + [v])[k].status == status;
    if v.status == status {
      assert after == before + {|visits|};
    } else {
      assert after == before;
    }
  }

  lemma {:induction false} UpdatesAreLooks(visits: seq<Visit>)
    ensures Updates(visits) == Looks(visits, Active)
    ensures |visits| - |Survivors(visits)| == Looks(visits, Dead)
  {
    if visits != [] {
      var n := |visits| - 1;
      UpdatesAreLooks(visits[..n]);
      assert visits == visits[..n] + [visits[n]];
      LooksSnoc(visits[..n], visits[n], Active);
      LooksSnoc(visits[..n], visits[n], Dead);
      hide Looks;
    }
  }

  lemma CallInNumbers(s: Turn, t: Turn, visits: seq<Visit>, added: seq<UnitId>)
    requires Called(s, t, visits, added)
    ensures CalledInNumbers(s, t, visits, |added|)
  {
    UpdatesAreLooks(visits);
    hide Looks;
    hide Updates;
    hide Survivors;
  }

  /** What an update adds is looked at later in the call or still in the list. */
  ghost predicate NothingAddedIsLost(visits: seq<Visit>, t: Turn, spawn: (nat, UnitId) -> seq<UnitId>) {
    forall k, u | 0 <= k < |visits| && visits[k].status.Active? && u in spawn(k, visits[k].unit) ::
      u in t.units || exists i | 0 <= i < |visits| :: visits[i].unit == u
  }

  lemma {:induction false} SpawnedHolds(visits: seq<Visit>, spawn: (nat, UnitId) -> seq<UnitId>, k: nat, u: UnitId)
    requires k < |visits| && visits[k].status.Active? && u in spawn(k, visits[k].unit)
    ensures u in Spawned(visits, spawn)
  {
    var n := |visits| - 1;
    if k < n {
      SpawnedHolds(visits[..n], spawn, k, u);
    }
  }

  lemma AddedIsKept(s: Turn, t: Turn, visits: seq<Visit>, spawn: (nat, UnitId) -> seq<UnitId>)
    requires Advanced(s, t, visits, Spawned(visits, spawn))
    ensures NothingAddedIsLost(visits, t, spawn)
  {
    hide Survivors;
    forall k, u | 0 <= k < |visits| && visits[k].status.Active? && u in spawn(k, visits[k].unit)
      ensures u in t.units || exists i | 0 <= i < |visits| :: visits[i].unit == u
    {
      SpawnedHolds(visits, spawn, k, u);
      hide Spawned;
      assert u in multiset(Seen(visits)) + multiset(t.units[t.cursor..]);
      if u in Seen(visits) {
        var i :| 0 <= i < |Seen(visits)| && Seen(visits)[i] == u;
        assert visits[i].unit == u;
      }
    }
  }

  lemma SnocVisit(visits: seq<Visit>, v: Visit)
    ensures Seen(visits + [v]) == Seen(visits) + [v.unit]
    ensures Survivors(visits + [v]) == Survivors(visits) + if v.status.Dead? then [] else [v.unit]
    ensures Updates(visits + [v]) == Updates(visits) + if v.status.Active? then 1 else 0
  {
    assert (visits + [v])[..|visits|] == visits;
  }

  /** Passing over a living unit. */
  lemma KeepAdvances(s: Turn, t: Turn, visits: seq<Visit>, added: seq<UnitId>, status: Status)
    requires Advanced(s, t, visits, added) && t.cursor < |t.units| && !status.Dead?
    ensures Advanced(s, t.(cursor := t.cursor + 1), visits + [Visit(t.units[t.cursor], status)], added)
  {
    var u := t.units[t.cursor];
    SnocVisit(visits, Visit(u, status));
    assert t.units[..t.cursor + 1] == t.units[..t.cursor] + [u];
    assert t.units[t.cursor..] == [u] + t.units[t.cursor + 1..];
  }

  /** Overwriting a dead unit with the last one. */
  lemma RemoveAdvances(s: Turn, t: Turn, visits: seq<Visit>, added: seq<UnitId>)
    requires Advanced(s, t, visits, added) && t.cursor < |t.units|
    ensures var last := |t.units| - 1;
      var units := t.units[t.cursor := t.units[last]][..last];
      Advanced(s, t.(units := units), visits + [Visit(t.units[t.cursor], Dead)], added)
  {
    hide Survivors;
    hide Seen;
    var last := |t.units| - 1;
    var u := t.units[t.cursor];
    var units := t.units[t.cursor := t.units[last]][..last];
    SnocVisit(visits, Visit(u, Dead));
    assert units[..t.cursor] == t.units[..t.cursor];
    RemovalIsCounted(Seen(visits), t.units, t.cursor);
  }

  lemma RemovalIsCounted(seen: seq<UnitId>, units: seq<UnitId>, i: nat)
    requires i < |units|
    ensures var last := |units| - 1;
      multiset(seen + [units[i]]) + multiset(units[i := units[last]][..last][i..])
      == multiset(seen) + multiset(units[i..])
  {
    SwapRemoves(units, i);
    assert multiset(seen + [units[i]]) == multiset(seen) + multiset{units[i]};
  }

  /** Overwriting one element with the last and dropping that removes the one. */
  lemma SwapRemoves(units: seq<UnitId>, i: nat)
    requires i < |units|
    ensures var last := |units| - 1;
      multiset(units[i := units[last]][..last][i..]) + multiset{units[i]} == multiset(units[i..])
  {
    var last := |units| - 1;
    var rest := units[i := units[last]][..last];
    if i < last {
      assert rest[i..] == [units[last]] + units[i + 1..last];
      assert units[i..] == [units[i]] + units[i + 1..last] + [units[last]];
    } else {
      assert units[i..] == [units[i]];
    }
  }

  /** Units added behind everything else. */
  lemma AddAdvances(s: Turn, t: Turn, visits: seq<Visit>, added: seq<UnitId>, more: seq<UnitId>)
    requires Advanced(s, t, visits, added)
    ensures Advanced(s, t.(units := t.units + more), visits, added + more)
  {
    var units, ahead := t.units + more, t.units[t.cursor..];
    assert units[..t.cursor] == t.units[..t.cursor];
    assert units[t.cursor..] == ahead + more;
    assert multiset(added + more) == multiset(added) + multiset(more);
    var seen := multiset(Seen(visits));
    assert seen + multiset(ahead + more) == (seen + multiset(ahead)) + multiset(more);
  }

  /** Updating a unit, which may add others. */
  lemma UpdateAdvances(s: Turn, t: Turn, visits: seq<Visit>, added: seq<UnitId>, more: seq<UnitId>)
    requires Advanced(s, t, visits, added) && t.cursor < |t.units|
    ensures Advanced(s, Turn(t.units + more, t.cursor + 1), visits + [Visit(t.units[t.cursor], Active)], added + more)
  {
    hide Advanced;
    KeepAdvances(s, t, visits, added, Active);
    AddAdvances(s, t.(cursor := t.cursor + 1), visits + [Visit(t.units[t.cursor], Active)], added, more);
  }

  class ActionScheduler {
    var actionUnits: seq<UnitId>
    var actionIterator: nat

    function Now(): Turn
      reads this
    {
      Turn(actionUnits, actionIterator)
    }

    constructor ()
      ensures Now() == Turn([], 0)
    {
      actionUnits, actionIterator := [], 0;
    }

    method AddActionUnit(u: UnitId)
      modifies this
      ensures Now() == Turn(old(actionUnits) + [u], old(actionIterator))
    {
      actionUnits := actionUnits + [u];
    }

    /** One staggered pass. look(k, u) is what the k-th look, at unit u, finds: updates in between may change it,
        and may add units. */
    method UpdateActions(look: (nat, UnitId) -> Status, spawn: (nat, UnitId) -> seq<UnitId>)
      returns (visits: seq<Visit>)
      modifies this
      ensures Called(old(Now()), Now(), visits, Spawned(visits, spawn))
      ensures CalledInNumbers(old(Now()), Now(), visits, |Spawned(visits, spawn)|)
      ensures NothingAddedIsLost(visits, Now(), spawn)
      ensures old(actionUnits) != [] ==>
        var first := if old(actionIterator) < |old(actionUnits)| then old(actionIterator) else 0;
        visits != [] && visits[0].unit == old(actionUnits)[first]
      ensures forall k | 0 <= k < |visits| :: visits[k].status == look(k, visits[k].unit)
    {
      hide Advanced;
      hide Survivors;
      hide Seen;
      hide Updates;
      hide Spawned;
      hide CalledInNumbers;
      hide NothingAddedIsLost;
      ghost var before := Now();
      if actionIterator >= |actionUnits| {
        actionIterator := 0;
      }
      ghost var first := actionIterator;
      var n := |actionUnits| / ACTION_UPDATE_RATE + 1;
      visits := [];
      StartAdvances(before, spawn);
      while actionIterator < |actionUnits| && n != 0
        invariant Advanced(before, Now(), visits, Spawned(visits, spawn))
        invariant n + Updates(visits) == Quota(|before.units|) && n >= 0
        invariant forall k | 0 <= k < |visits| :: visits[k].status == look(k, visits[k].unit)
        invariant visits == [] ==> actionUnits == before.units && actionIterator == first && n > 0
        invariant visits != [] ==> first < |before.units| && visits[0].unit == before.units[first]
        decreases n, |actionUnits| - actionIterator
      {
        var unit := actionUnits[actionIterator];
        var status := look(|visits|, unit);
        ghost var added := Spawned(visits, spawn);
        SnocVisit(visits, Visit(unit, status));
        SnocSpawned(visits, Visit(unit, status), spawn);
        if status.Dead? {
          RemoveAdvances(before, Now(), visits, added);
          actionUnits := actionUnits[actionIterator := actionUnits[|actionUnits| - 1]];
          actionUnits := actionUnits[..|actionUnits| - 1];
        } else {
          if status.Player? {
            KeepAdvances(before, Now(), visits, added, status);
          } else {
            UpdateAdvances(before, Now(), visits, added, spawn(|visits|, unit));
            actionUnits := actionUnits + spawn(|visits|, unit);
            n := n - 1;
          }
          actionIterator := actionIterator + 1;
        }
        visits := visits + [Visit(unit, status)];
      }
      AdvancedInRange(before, Now(), visits, Spawned(visits, spawn));
      CallInNumbers(before, Now(), visits, Spawned(visits, spawn));
      AddedIsKept(before, Now(), visits, spawn);
    }
  }

  lemma SnocSpawned(visits: seq<Visit>, v: Visit, spawn: (nat, UnitId) -> seq<UnitId>)
    ensures v.status.Active? ==> Spawned(visits + [v], spawn) == Spawned(visits, spawn) + spawn(|visits|, v.unit)
    ensures !v.status.Active? ==> Spawned(visits + [v], spawn) == Spawned(visits, spawn)
  {
    assert (visits + [v])[..|visits|] == visits;
  }

  lemma StartAdvances(s: Turn, spawn: (nat, UnitId) -> seq<UnitId>)
    ensures Spawned([], spawn) == [] && Advanced(s, Turn(s.units, Start(s)), [], []) && Updates([]) == 0
  {
    assert Seen([]) == [];
  }

  lemma AdvancedInRange(s: Turn, t: Turn, visits: seq<Visit>, added: seq<UnitId>)
    requires Advanced(s, t, visits, added)
    ensures t.cursor <= |t.units|
  {
  }

  // ---- Whole sweeps ----

  /** Calls in a row with nothing added in between, all but the last ending inside the list. */
  ghost predicate Sweep(turns: seq<Turn>, calls: seq<seq<Visit>>) {
    && |turns| == |calls| + 1
    && Start(turns[0]) == 0
    && (forall i | 0 <= i < |calls| :: Called(turns[i], turns[i + 1], calls[i], []))
    && (forall i | 0 < i < |calls| :: turns[i].cursor < |turns[i].units|)
  }

  function AllVisits(calls: seq<seq<Visit>>): seq<Visit> {
    if calls == [] then [] else AllVisits(calls[..|calls| - 1]) + calls[|calls| - 1]
  }

  lemma {:induction false} UpdatesSurvive(visits: seq<Visit>)
    ensures Updates(visits) <= |Survivors(visits)| <= |visits|
  {
    if visits != [] {
      UpdatesSurvive(visits[..|visits| - 1]);
    }
  }

  /** A call that ends inside the list has moved by at least its quota. */
  lemma CallMakesProgress(s: Turn, t: Turn, visits: seq<Visit>)
    requires Called(s, t, visits, [])
    ensures |t.units| <= |s.units|
    ensures t.cursor < |t.units| ==> t.cursor >= Start(s) + Quota(|s.units|)
  {
    UpdatesSurvive(visits);
    assert |t.units[..t.cursor]| == Start(s) + |Survivors(visits)|;
  }

  lemma QuotaTimes(k: nat, small: nat, large: nat)
    requires small <= large
    ensures Quota(small) <= Quota(large)
    ensures k * Quota(small) <= k * Quota(large)
    ensures (k + 1) * Quota(large) == k * Quota(large) + Quota(large)
  {
  }

  lemma {:induction false} SweepMovesOn(turns: seq<Turn>, calls: seq<seq<Visit>>, k: nat)
    requires Sweep(turns, calls) && 0 < k <= |calls| && turns[k].cursor < |turns[k].units|
    ensures turns[k].cursor >= k * Quota(|turns[k].units|)
  {
    hide Called;
    hide Quota;
    var s, t := turns[k - 1], turns[k - 1 + 1];
    assert Called(s, t, calls[k - 1], []);
    CallMakesProgress(s, t, calls[k - 1]);
    QuotaTimes(k, |t.units|, |s.units|);
    QuotaTimes(k - 1, |s.units|, |s.units|);
    if k > 1 {
      SweepMovesOn(turns, calls, k - 1);
      assert Start(s) == s.cursor;
    }
  }

  /** A sweep takes at most 32 calls, however the list shrinks meanwhile. */
  lemma SweepEndsInTime(turns: seq<Turn>, calls: seq<seq<Visit>>)
    requires Sweep(turns, calls)
    requires |calls| >= 32
    ensures |calls| == 32 && turns[|calls|].cursor >= |turns[|calls|].units|
  {
    hide Called;
    if turns[ACTION_UPDATE_RATE].cursor < |turns[ACTION_UPDATE_RATE].units| {
      SweepMovesOn(turns, calls, ACTION_UPDATE_RATE);
      assert false;
    }
  }

  /** One call of a sweep. */
  lemma CallVisitsOnce(s: Turn, t: Turn, visits: seq<Visit>)
    requires Called(s, t, visits, [])
    ensures t.cursor <= |t.units| && Start(s) <= |s.units|
    ensures multiset(Seen(visits)) + multiset(t.units[t.cursor..]) == multiset(s.units[Start(s)..])
    ensures t.units[..t.cursor] == s.units[..Start(s)] + Survivors(visits)
  {
  }

  /** Along a sweep nothing is lost and nothing is visited twice: the visits so far and the units
      still ahead are together the units there were at the start. */
  lemma {:induction false} SweepVisitsOnce(turns: seq<Turn>, calls: seq<seq<Visit>>)
    requires Sweep(turns, calls) && |calls| > 0
    ensures var last := turns[|calls|];
      && last.cursor <= |last.units|
      && multiset(Seen(AllVisits(calls))) + multiset(last.units[last.cursor..]) == multiset(turns[0].units)
      && last.units[..last.cursor] == Survivors(AllVisits(calls))
  {
    var n := |calls| - 1;
    var s, t := turns[n], turns[n + 1];
    assert Called(s, t, calls[n], []);
    CallVisitsOnce(s, t, calls[n]);
    hide Called;
    if n == 0 {
      assert AllVisits(calls) == calls[0] by {
        assert calls[..0] == [];
      }
      assert turns[0].units[0..] == turns[0].units && turns[0].units[..0] == [];
    } else {
      SweepPrefix(turns, calls);
      SweepVisitsOnce(turns[..n + 1], calls[..n]);
      var seen := AllVisits(calls[..n]);
      ConcatVisits(seen, calls[n]);
      assert t.units[..t.cursor] == s.units[..s.cursor] + Survivors(calls[n]);
    }
  }

  lemma SweepPrefix(turns: seq<Turn>, calls: seq<seq<Visit>>)
    requires Sweep(turns, calls) && |calls| > 1
    ensures Sweep(turns[..|calls|], calls[..|calls| - 1])
  {
    hide Called;
    var n := |calls| - 1;
    forall i | 0 <= i < n
      ensures Called(turns[..n + 1][i], turns[..n + 1][i + 1], calls[..n][i], [])
    {
      assert Called(turns[i], turns[i + 1], calls[i], []);
    }
  }

  lemma {:induction false} ConcatVisits(a: seq<Visit>, b: seq<Visit>)
    ensures Seen(a + b) == Seen(a) + Seen(b)
    ensures Survivors(a + b) == Survivors(a) + Survivors(b)
    decreases |b|
  {
    if b == [] {
      assert a + b == a;
    } else {
      var n := |b| - 1;
      ConcatVisits(a, b[..n]);
      assert a + b == (a + b[..n]) + [b[n]] && b == b[..n] + [b[n]];
      SnocVisit(a + b[..n], b[n]);
      SnocVisit(b[..n], b[n]);
    }
  }

  /** A finished sweep has visited every unit it began with exactly once, and kept the living in order. */
  lemma FinishedSweepIsComplete(turns: seq<Turn>, calls: seq<seq<Visit>>)
    requires Sweep(turns, calls) && |calls| > 0
    requires turns[|calls|].cursor >= |turns[|calls|].units|
    ensures multiset(Seen(AllVisits(calls))) == multiset(turns[0].units)
    ensures turns[|calls|].units == Survivors(AllVisits(calls))
    ensures |turns[|calls|].units| == |turns[0].units| - Looks(AllVisits(calls), Dead)
  {
    UpdatesAreLooks(AllVisits(calls));
    hide Looks;
    SweepVisitsOnce(turns, calls);
    var last := turns[|calls|];
    assert last.units[last.cursor..] == [] && last.units[..last.cursor] == last.units;
  }
}
