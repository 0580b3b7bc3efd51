/** The threat map update: a job fan-out with a countdown, drawing into the buffer nobody reads. */
module ThreatMapping {
  import opened Basics

  /** What the weapons of a unit reach from below the surface and from above it. */
  datatype Def = Def(
    subToAir: bool,
    subToLand: bool,
    subToWater: bool,
    surfToAir: bool,
    surfToLand: bool,
    surfToWater: bool
  )

  /** The recorded data of one enemy; id stands for all that only drawing looks at. */
  datatype Enemy = Enemy(id: nat, def: Option<Def>, inWater: bool)

  /** One layer, indexed by map square. */
  type Layer = seq<real>

  /** Two drawers per role: 2r draws the air layer of role r, 2r + 1 its surface, amphibious and
      swimming layers. Job 2 * roles is the update's own body, with the cloak and shield layers. */
  datatype Config = Config(
    roles: nat,
    mapSize: nat,
    draw: (nat, nat, Enemy, Layer) -> Layer
  )

  datatype Enemies = Enemies(hostile: seq<Enemy>, peaceful: seq<Enemy>)

  type Buffer = seq<seq<Layer>>

  datatype Progress = Off | Ready | Drawing(target: nat, drawn: nat) | Done

  datatype Stage = Idle | Queued | Launching(next: nat)

  datatype State = State(
    buffers: seq<Buffer>,
    current: nat,
    updating: bool,
    stage: Stage,
    enemies: Enemies,
    target: nat,
    remaining: int,
    jobs: seq<Progress>,
    posted: nat,
    enqueues: nat,
    posts: nat,
    applies: nat,
    published: Enemies
  )

  function Jobs(c: Config): nat {
    2 * c.roles + 1
  }

  function Parts(c: Config, j: nat): nat {
    if j == 2 * c.roles then 2 else if j % 2 == 0 then 1 else 3
  }

  function Blank(c: Config): Layer {
    seq(c.mapSize, _ => 0.0)
  }

  function Chosen(enemies: seq<Enemy>, keep: Enemy -> bool): seq<Enemy> {
    if enemies == [] then []
    else
      var n := |enemies| - 1;
      Chosen(enemies[..n], keep) + if keep(enemies[n]) then [enemies[n]] else []
  }

  /** An enemy of unknown kind counts as a threat to all. */
  predicate HitsAir(e: Enemy) {
    if e.def.None? then true
    else if e.inWater then e.def.value.subToAir
    else e.def.value.surfToAir
  }

  predicate HitsGround(e: Enemy) {
    if e.def.None? then true
    else if e.inWater then e.def.value.subToLand || e.def.value.subToWater
    else e.def.value.surfToLand || e.def.value.surfToWater
  }

  /** The enemies job j draws, in order. */
  function Work(c: Config, e: Enemies, j: nat): seq<Enemy> {
    if j == 2 * c.roles then e.hostile + e.peaceful
    else Chosen(e.hostile, if j % 2 == 0 then HitsAir else HitsGround)
  }

  /** A layer after drawing the enemies one after another on a blank one. */
  function Painted(c: Config, j: nat, part: nat, enemies: seq<Enemy>): Layer {
    if enemies == [] then Blank(c)
    else
      var n := |enemies| - 1;
      c.draw(j, part, enemies[n], Painted(c, j, part, enemies[..n]))
  }

  function PaintedBy(c: Config, j: nat, enemies: seq<Enemy>): seq<Layer> {
    seq(Parts(c, j), part requires 0 <= part < Parts(c, j) => Painted(c, j, part, enemies))
  }

  /** What one thread drawing everything in turn would produce. */
  function Sequential(c: Config, e: Enemies): Buffer {
    seq(Jobs(c), j requires 0 <= j < Jobs(c) => PaintedBy(c, j, Work(c, e, j)))
  }

  // ---- Steps ----

  datatype Action =
    | Enqueue
    | Begin(enemies: Enemies)
    | Launch
    | Fill(job: nat)
    | Draw(job: nat)
    | Finish(job: nat)
    | Apply

  predicate WellFormed(c: Config, s: State) {
    && |s.buffers| == 2 && s.current < 2 && s.target < 2
    && (forall b | 0 <= b < 2 :: |s.buffers[b]| == Jobs(c))
    && |s.jobs| == Jobs(c)
    && (forall j | 0 <= j < Jobs(c) :: s.jobs[j].Drawing? ==> s.jobs[j].target < 2)
  }

  predicate Enabled(c: Config, s: State, a: Action)
    requires WellFormed(c, s)
  {
    match a
    case Enqueue => !s.updating
    case Begin(_) => s.stage.Queued?
    case Launch => s.stage.Launching? && s.stage.next < Jobs(c)
    case Fill(j) => j < Jobs(c) && s.jobs[j].Ready?
    case Draw(j) => j < Jobs(c) && s.jobs[j].Drawing? && s.jobs[j].drawn < |Work(c, s.enemies, j)|
    case Finish(j) => j < Jobs(c) && s.jobs[j].Drawing? && s.jobs[j].drawn >= |Work(c, s.enemies, j)|
    case Apply => s.posted > 0
  }

  /** The buffer that is not the current one. */
  function Other(current: nat): nat {
    if current == 0 then 1 else 0
  }

  function Filled(c: Config, s: State, j: nat): State
    requires WellFormed(c, s) && j < Jobs(c)
  {
    var b := if j == 2 * c.roles then s.target else Other(s.current);
    s.(jobs := s.jobs[j := Drawing(b, 0)],
       buffers := s.buffers[b := s.buffers[b][j := seq(Parts(c, j), _ => Blank(c))]])
  }

  function Drawn(c: Config, s: State, j: nat): State
    requires WellFormed(c, s) && j < Jobs(c) && s.jobs[j].Drawing? && s.jobs[j].drawn < |Work(c, s.enemies, j)|
  {
    var b := s.jobs[j].target;
    var e := Work(c, s.enemies, j)[s.jobs[j].drawn];
    var layers := s.buffers[b][j];
    var drawn := seq(|layers|, part requires 0 <= part < |layers| => c.draw(j, part, e, layers[part]));
    s.(jobs := s.jobs[j := Drawing(b, s.jobs[j].drawn + 1)], buffers := s.buffers[b := s.buffers[b][j := drawn]])
  }

  /** The last job to finish posts the application. */
  function Finished(s: State, j: nat): State
    requires j < |s.jobs|
  {
    var last := s.remaining - 1 == 0;
    s.(jobs := s.jobs[j := Done],
       remaining := s.remaining - 1,
       posted := s.posted + if last then 1 else 0,
       posts := s.posts + if last then 1 else 0)
  }

  function Applied(s: State): State
    requires s.posted > 0
  {
    if !s.updating then s.(posted := s.posted - 1)
    else s.(posted := s.posted - 1, current := Other(s.current), updating := false, stage := Idle,
            applies := s.applies + 1, published := s.enemies)
  }

  function Next(c: Config, s: State, a: Action): State
    requires WellFormed(c, s) && Enabled(c, s, a)
  {
    match a
    case Enqueue => s.(updating := true, stage := Queued, enqueues := s.enqueues + 1)
    case Begin(e) =>
      s.(stage := Launching(0), enemies := e, target := Other(s.current), remaining := Jobs(c),
         jobs := seq(Jobs(c), _ => Off))
    case Launch => s.(stage := Launching(s.stage.next + 1), jobs := s.jobs[s.stage.next := Ready])
    case Fill(j) => Filled(c, s, j)
    case Draw(j) => Drawn(c, s, j)
    case Finish(j) => Finished(s, j)
    case Apply => Applied(s)
  }

  // ---- The invariant ----

  function Open(jobs: seq<Progress>): nat {
    if jobs == [] then 0
    else Open(jobs[..|jobs| - 1]) + if jobs[|jobs| - 1].Done? then 0 else 1
  }

  /** What job j has drawn is what a lone thread would have drawn by then, and not for readers to see. */
  ghost predicate JobHolds(c: Config, s: State, j: nat)
    requires WellFormed(c, s) && j < Jobs(c)
  {
    var work := Work(c, s.enemies, j);
    match s.jobs[j]
    case Drawing(b, k) => b == Other(s.current) && k <= |work| && s.buffers[b][j] == PaintedBy(c, j, work[..k])
    case Done => s.buffers[Other(s.current)][j] == PaintedBy(c, j, work)
    case _ => true
  }

  /** Jobs are off, or launched in order. */
  ghost predicate JobsFollowStage(c: Config, s: State)
    requires WellFormed(c, s)
  {
    match s.stage
    case Launching(n) =>
      && s.updating && n <= Jobs(c) && s.target == Other(s.current) && s.remaining == Open(s.jobs)
      && (forall j | 0 <= j < Jobs(c) :: s.jobs[j].Off? <==> n <= j)
      && (forall j | 0 <= j < Jobs(c) :: JobHolds(c, s, j))
    case Queued => s.updating && forall j | 0 <= j < Jobs(c) :: s.jobs[j].Off? || s.jobs[j].Done?
    case Idle => !s.updating && forall j | 0 <= j < Jobs(c) :: s.jobs[j].Off? || s.jobs[j].Done?
  }

  /** Every update posts once: when, and only when, all its jobs are done. */
  ghost predicate CountsHold(s: State) {
    && s.enqueues == s.applies + (if s.updating then 1 else 0)
    && s.posts == s.applies + s.posted
    && s.posted == (if s.stage.Launching? && Open(s.jobs) == 0 then 1 else 0)
  }

  ghost predicate Inv(c: Config, s: State) {
    && WellFormed(c, s)
    && JobsFollowStage(c, s)
    && CountsHold(s)
    && s.buffers[s.current] == Sequential(c, s.published)
  }

  lemma {:induction false} OpenUpdate(jobs: seq<Progress>, j: nat, p: Progress)
    requires j < |jobs|
    ensures Open(jobs[j := p]) - (if p.Done? then 0 else 1) == Open(jobs) - if jobs[j].Done? then 0 else 1
  {
    var n := |jobs| - 1;
    if j < n {
      OpenUpdate(jobs[..n], j, p);
      assert jobs[j := p][..n] == jobs[..n][j := p];
    } else {
      assert jobs[j := p][..n] == jobs[..n];
    }
  }

  lemma {:induction false} NoneOpen(jobs: seq<Progress>)
    ensures Open(jobs) == 0 <==> forall j | 0 <= j < |jobs| :: jobs[j].Done?
    ensures Open(jobs) <= |jobs|
    ensures (forall j | 0 <= j < |jobs| :: !jobs[j].Done?) ==> Open(jobs) == |jobs|
  {
    if jobs != [] {
      NoneOpen(jobs[..|jobs| - 1]);
    }
  }

  lemma PaintedNext(c: Config, j: nat, enemies: seq<Enemy>, k: nat)
    requires k < |enemies|
    ensures var drawn := PaintedBy(c, j, enemies[..k]);
      PaintedBy(c, j, enemies[..k + 1]) ==
      seq(Parts(c, j), part requires 0 <= part < Parts(c, j) => c.draw(j, part, enemies[k], drawn[part]))
  {
    var drawn := PaintedBy(c, j, enemies[..k]);
    var more := seq(Parts(c, j), part requires 0 <= part < Parts(c, j) => c.draw(j, part, enemies[k], drawn[part]));
    forall part | 0 <= part < Parts(c, j)
      ensures PaintedBy(c, j, enemies[..k + 1])[part] == more[part]
    {
      assert enemies[..k + 1][..k] == enemies[..k];
    }
    assert PaintedBy(c, j, enemies[..k + 1]) == more;
  }

  lemma PaintedStart(c: Config, j: nat)
    ensures PaintedBy(c, j, []) == seq(Parts(c, j), _ => Blank(c))
  {
  }

  lemma EnqueueKeepsInv(c: Config, s: State)
    requires Inv(c, s) && Enabled(c, s, Enqueue)
    ensures Inv(c, Next(c, s, Enqueue))
  {
  }

  lemma BeginKeepsInv(c: Config, s: State, e: Enemies)
    requires Inv(c, s) && Enabled(c, s, Begin(e))
    ensures Inv(c, Next(c, s, Begin(e)))
  {
    NoneOpen(Next(c, s, Begin(e)).jobs);
  }

  lemma LaunchKeepsInv(c: Config, s: State)
    requires Inv(c, s) && Enabled(c, s, Launch)
    ensures Inv(c, Next(c, s, Launch))
  {
    hide PaintedBy;
    hide Sequential;
    hide Work;
    var t := Next(c, s, Launch);
    OpenUpdate(s.jobs, s.stage.next, Ready);
    forall j | 0 <= j < Jobs(c)
      ensures JobHolds(c, t, j)
    {
      assert JobHolds(c, s, j);
    }
  }

  lemma FillKeepsInv(c: Config, s: State, j: nat)
    requires Inv(c, s) && Enabled(c, s, Fill(j))
    ensures Inv(c, Next(c, s, Fill(j)))
  {
    hide PaintedBy;
    hide Sequential;
    hide Work;
    var t := Next(c, s, Fill(j));
    OpenUpdate(s.jobs, j, t.jobs[j]);
    PaintedStart(c, j);
    assert Work(c, s.enemies, j)[..0] == [];
    forall i | 0 <= i < Jobs(c)
      ensures JobHolds(c, t, i)
    {
      assert JobHolds(c, s, i);
    }
  }

  lemma DrawKeepsInv(c: Config, s: State, j: nat)
    requires Inv(c, s) && Enabled(c, s, Draw(j))
    ensures Inv(c, Next(c, s, Draw(j)))
  {
    hide PaintedBy;
    hide Sequential;
    hide Work;
    var t := Next(c, s, Draw(j));
    OpenUpdate(s.jobs, j, t.jobs[j]);
    assert JobHolds(c, s, j);
    PaintedNext(c, j, Work(c, s.enemies, j), s.jobs[j].drawn);
    PaintedLength(c, j, Work(c, s.enemies, j)[..s.jobs[j].drawn]);
    forall i | 0 <= i < Jobs(c)
      ensures JobHolds(c, t, i)
    {
      assert JobHolds(c, s, i);
    }
  }

  lemma PaintedLength(c: Config, j: nat, enemies: seq<Enemy>)
    ensures |PaintedBy(c, j, enemies)| == Parts(c, j)
  {
  }

  lemma FinishKeepsInv(c: Config, s: State, j: nat)
    requires Inv(c, s) && Enabled(c, s, Finish(j))
    ensures Inv(c, Next(c, s, Finish(j)))
  {
    hide PaintedBy;
    hide Sequential;
    hide Work;
    var t := Next(c, s, Finish(j));
    OpenUpdate(s.jobs, j, Done);
    assert JobHolds(c, s, j);
    var work := Work(c, s.enemies, j);
    assert work[..|work|] == work;
    forall i | 0 <= i < Jobs(c)
      ensures JobHolds(c, t, i)
    {
      assert JobHolds(c, s, i);
    }
  }

  lemma ApplyKeepsInv(c: Config, s: State)
    requires Inv(c, s) && Enabled(c, s, Apply)
    ensures Inv(c, Next(c, s, Apply))
  {
    NoneOpen(s.jobs);
    var next := s.buffers[Other(s.current)];
    forall j | 0 <= j < Jobs(c)
      ensures next[j] == PaintedBy(c, j, Work(c, s.enemies, j))
    {
      assert JobHolds(c, s, j);
    }
    assert next == Sequential(c, s.enemies);
  }

  lemma NextKeepsInv(c: Config, s: State, a: Action)
    requires Inv(c, s) && Enabled(c, s, a)
    ensures Inv(c, Next(c, s, a))
  {
    hide Inv;
    hide Next;
    match a
    case Enqueue => EnqueueKeepsInv(c, s);
    case Begin(e) => BeginKeepsInv(c, s, e);
    case Launch => LaunchKeepsInv(c, s);
    case Fill(j) => FillKeepsInv(c, s, j);
    case Draw(j) => DrawKeepsInv(c, s, j);
    case Finish(j) => FinishKeepsInv(c, s, j);
    case Apply => ApplyKeepsInv(c, s);
  }

  // ---- Runs ----

  /** After initialisation both buffers are blank. */
  ghost predicate Init(c: Config, s: State) {
    var blank := seq(Jobs(c), j requires 0 <= j < Jobs(c) => seq(Parts(c, j), _ => Blank(c)));
    && s.buffers == [blank, blank] && s.current == 0 && s.target == 0
    && !s.updating && s.stage.Idle? && s.jobs == seq(Jobs(c), _ => Off)
    && s.posted == s.enqueues == s.posts == s.applies == 0
    && s.published == Enemies([], [])
  }

  lemma InitHolds(c: Config, s: State)
    requires Init(c, s)
    ensures Inv(c, s)
  {
    forall j | 0 <= j < Jobs(c)
      ensures Sequential(c, s.published)[j] == s.buffers[0][j]
    {
      assert Work(c, s.published, j) == [];
      PaintedStart(c, j);
    }
    assert s.buffers[0] == Sequential(c, s.published);
  }

  ghost predicate IsStep(c: Config, s: State, a: Action, t: State) {
    WellFormed(c, s) && Enabled(c, s, a) && t == Next(c, s, a)
  }

  ghost predicate IsRun(c: Config, states: seq<State>, actions: seq<Action>) {
    && |states| == |actions| + 1 && Init(c, states[0])
    && forall i | 0 <= i < |actions| :: IsStep(c, states[i], actions[i], states[i + 1])
  }

  lemma {:induction false} RunsKeepInv(c: Config, states: seq<State>, actions: seq<Action>, n: nat)
    requires IsRun(c, states, actions) && n < |states|
    ensures Inv(c, states[n])
  {
    hide Inv;
    hide Init;
    if n == 0 {
      InitHolds(c, states[0]);
    } else {
      RunsKeepInv(c, states, actions, n - 1);
      assert IsStep(c, states[n - 1], actions[n - 1], states[n - 1 + 1]);
      NextKeepsInv(c, states[n - 1], actions[n - 1]);
    }
  }

  /** At every moment of every run readers see the complete result of drawing one set of enemies
      sequentially: never a half-drawn layer. */
  lemma ReadersSeeSequential(c: Config, states: seq<State>, actions: seq<Action>, n: nat)
    requires IsRun(c, states, actions) && n < |states|
    ensures states[n].current < |states[n].buffers|
    ensures states[n].buffers[states[n].current] == Sequential(c, states[n].published)
  {
    RunsKeepInv(c, states, actions, n);
  }

  /** The enemies the latest update among the first n steps began with. */
  function LatestBegun(actions: seq<Action>, n: nat): Option<Enemies>
    requires n <= |actions|
  {
    if n == 0 then None
    else if actions[n - 1].Begin? then Some(actions[n - 1].enemies)
    else LatestBegun(actions, n - 1)
  }

  lemma {:induction false} UpdateKeepsEnemies(c: Config, states: seq<State>, actions: seq<Action>, n: nat)
    requires IsRun(c, states, actions) && n < |states|
    ensures states[n].stage.Launching? ==> LatestBegun(actions, n) == Some(states[n].enemies)
  {
    if n > 0 {
      UpdateKeepsEnemies(c, states, actions, n - 1);
      assert IsStep(c, states[n - 1], actions[n - 1], states[n - 1 + 1]);
    }
  }

  /** What is published changes only when an update is applied, and then to the enemies it began with. */
  lemma AppliedIsPublished(c: Config, states: seq<State>, actions: seq<Action>, n: nat)
    requires IsRun(c, states, actions) && n < |actions|
    ensures !actions[n].Apply? ==> states[n + 1].published == states[n].published
    ensures actions[n].Apply? ==> LatestBegun(actions, n) == Some(states[n + 1].published)
  {
    RunsKeepInv(c, states, actions, n);
    UpdateKeepsEnemies(c, states, actions, n);
    assert IsStep(c, states[n], actions[n], states[n + 1]);
  }

  // ---- Which enemies a layer shows ----

  /** The layer once the enemies that count were drawn on it, each once and in order. */
  function Layered(draw: (Enemy, Layer) -> Layer, counts: Enemy -> bool, enemies: seq<Enemy>, layer: Layer): Layer {
    if enemies == [] then layer
    else Layered(draw, counts, enemies[1..], if counts(enemies[0]) then draw(enemies[0], layer) else layer)
  }

  lemma {:induction false} LayeredSnoc(draw: (Enemy, Layer) -> Layer, counts: Enemy -> bool, enemies: seq<Enemy>,
                                       last: Enemy, layer: Layer)
    ensures var before := Layered(draw, counts, enemies, layer);
      Layered(draw, counts, enemies + [last], layer) == if counts(last) then draw(last, before) else before
  {
    if enemies == [] {
      assert (enemies + [last])[1..] == [];
    } else {
      assert (enemies + [last])[1..] == enemies[1..] + [last];
      LayeredSnoc(draw, counts, enemies[1..], last, if counts(enemies[0]) then draw(enemies[0], layer) else layer);
    }
  }

  lemma {:induction false} PaintedIsLayered(c: Config, j: nat, part: nat, counts: Enemy -> bool, enemies: seq<Enemy>)
    ensures Painted(c, j, part, Chosen(enemies, counts)) ==
      Layered((e, layer) => c.draw(j, part, e, layer), counts, enemies, Blank(c))
  {
    if enemies != [] {
      var n := |enemies| - 1;
      var chosen := Chosen(enemies[..n], counts);
      assert enemies == enemies[..n] + [enemies[n]];
      assert (chosen + [enemies[n]])[..|chosen|] == chosen && chosen + [] == chosen;
      PaintedIsLayered(c, j, part, counts, enemies[..n]);
      LayeredSnoc((e, layer) => c.draw(j, part, e, layer), counts, enemies[..n], enemies[n], Blank(c));
    }
  }

  lemma {:induction false} AllChosen(enemies: seq<Enemy>)
    ensures Chosen(enemies, (e: Enemy) => true) == enemies
  {
    if enemies != [] {
      AllChosen(enemies[..|enemies| - 1]);
    }
  }

  lemma SequentialIsLayered(c: Config, e: Enemies, j: nat, part: nat)
    requires j < Jobs(c) && part < Parts(c, j)
    ensures |Sequential(c, e)| == Jobs(c) && |Sequential(c, e)[j]| == Parts(c, j)
    ensures var draw := (x: Enemy, layer: Layer) => c.draw(j, part, x, layer);
      Sequential(c, e)[j][part] ==
      if j == 2 * c.roles then Layered(draw, (x: Enemy) => true, e.hostile + e.peaceful, Blank(c))
      else if j % 2 == 0 then Layered(draw, HitsAir, e.hostile, Blank(c))
      else Layered(draw, HitsGround, e.hostile, Blank(c))
  {
    if j == 2 * c.roles {
      AllChosen(e.hostile + e.peaceful);
      PaintedIsLayered(c, j, part, (x: Enemy) => true, e.hostile + e.peaceful);
    } else if j % 2 == 0 {
      PaintedIsLayered(c, j, part, HitsAir, e.hostile);
    } else {
      PaintedIsLayered(c, j, part, HitsGround, e.hostile);
    }
  }

  lemma {:induction false} SameCount(draw: (Enemy, Layer) -> Layer, counts: Enemy -> bool, counts': Enemy -> bool,
                                     enemies: seq<Enemy>, layer: Layer)
    requires forall i | 0 <= i < |enemies| :: counts(enemies[i]) == counts'(enemies[i])
    ensures Layered(draw, counts, enemies, layer) == Layered(draw, counts', enemies, layer)
  {
    if enemies != [] {
      SameCount(draw, counts, counts', enemies[1..], if counts(enemies[0]) then draw(enemies[0], layer) else layer);
    }
  }

  /** In every run the air layer of a role that readers see shows exactly the hostile enemies of unknown kind and
      those that reach the air from where they are. */
  lemma AirLayersShowThreats(c: Config, states: seq<State>, actions: seq<Action>, n: nat, role: nat)
    requires IsRun(c, states, actions) && n < |states| && role < c.roles
    ensures var s := states[n];
      && s.current < |s.buffers| && 2 * role < |s.buffers[s.current]| && |s.buffers[s.current][2 * role]| == 1
      && s.buffers[s.current][2 * role][0] ==
         Layered((e, layer) => c.draw(2 * role, 0, e, layer),
                 (e: Enemy) => e.def.None? || (if e.inWater then e.def.value.subToAir else e.def.value.surfToAir),
                 s.published.hostile, seq(c.mapSize, _ => 0.0))
  {
    ReadersSeeSequential(c, states, actions, n);
    SequentialIsLayered(c, states[n].published, 2 * role, 0);
    SameCount((e, layer) => c.draw(2 * role, 0, e, layer), HitsAir,
              (e: Enemy) => e.def.None? || (if e.inWater then e.def.value.subToAir else e.def.value.surfToAir),
              states[n].published.hostile, Blank(c));
  }

  /** Its surface, amphibious and swimming layers show exactly the hostile enemies of unknown kind and those that
      reach land or water. */
  lemma GroundLayersShowThreats(c: Config, states: seq<State>, actions: seq<Action>, n: nat, role: nat, part: nat)
    requires IsRun(c, states, actions) && n < |states| && role < c.roles && part < 3
    ensures var s := states[n];
      && s.current < |s.buffers| && 2 * role + 1 < |s.buffers[s.current]| && |s.buffers[s.current][2 * role + 1]| == 3
      && s.buffers[s.current][2 * role + 1][part] ==
         Layered((e, layer) => c.draw(2 * role + 1, part, e, layer),
                 (e: Enemy) => e.def.None? || (if e.inWater then e.def.value.subToLand || e.def.value.subToWater
                                               else e.def.value.surfToLand || e.def.value.surfToWater),
                 s.published.hostile, seq(c.mapSize, _ => 0.0))
  {
    ReadersSeeSequential(c, states, actions, n);
    SequentialIsLayered(c, states[n].published, 2 * role + 1, part);
    SameCount((e, layer) => c.draw(2 * role + 1, part, e, layer), HitsGround,
              (e: Enemy) => e.def.None? || (if e.inWater then e.def.value.subToLand || e.def.value.subToWater
                                            else e.def.value.surfToLand || e.def.value.surfToWater),
              states[n].published.hostile, Blank(c));
  }

  /** The cloak and shield layers show every enemy, the hostile ones before the others. */
  lemma SharedLayersShowAll(c: Config, states: seq<State>, actions: seq<Action>, n: nat, part: nat)
    requires IsRun(c, states, actions) && n < |states| && part < 2
    ensures var s, last := states[n], 2 * c.roles;
      && s.current < |s.buffers| && |s.buffers[s.current]| == last + 1 && |s.buffers[s.current][last]| == 2
      && s.buffers[s.current][last][part] ==
         Layered((e, layer) => c.draw(last, part, e, layer), (e: Enemy) => true,
                 s.published.hostile + s.published.peaceful, seq(c.mapSize, _ => 0.0))
  {
    ReadersSeeSequential(c, states, actions, n);
    SequentialIsLayered(c, states[n].published, 2 * c.roles, part);
  }

  /** The buffer readers use is never written; only the application of an update switches it. */
  lemma ReadBufferIsUntouched(c: Config, s: State, a: Action)
    requires Inv(c, s) && Enabled(c, s, a)
    ensures Next(c, s, a).buffers[s.current] == s.buffers[s.current]
    ensures !a.Apply? ==> Next(c, s, a).current == s.current
  {
    hide Sequential;
    hide PaintedBy;
    hide Work;
    if a.Draw? {
      assert JobHolds(c, s, a.job);
    }
  }

  /** The application is posted exactly once per update, and only when the update's body and all
      its drawers are done. */
  lemma PostedOnceWhenDone(c: Config, states: seq<State>, actions: seq<Action>, n: nat)
    requires IsRun(c, states, actions) && n < |states|
    ensures var s := states[n];
      && (s.posted > 0 <==> s.stage.Launching? && forall j | 0 <= j < |s.jobs| :: s.jobs[j].Done?)
      && (s.posted > 0 ==> s.posted == 1 && s.updating && |s.jobs| == Jobs(c))
      && s.posts == s.enqueues - (if s.updating && s.posted == 0 then 1 else 0)
  {
    RunsKeepInv(c, states, actions, n);
    NoneOpen(states[n].jobs);
  }

  /** An update cannot get stuck: until it is applied, some step of it is possible. */
  lemma UpdateNeverStuck(c: Config, s: State) returns (a: Action)
    requires Inv(c, s) && s.updating
    ensures !a.Enqueue? && Enabled(c, s, a)
  {
    NoneOpen(s.jobs);
    if s.stage.Queued? {
      return Begin(s.enemies);
    }
    if s.stage.next < Jobs(c) {
      return Launch;
    }
    if s.posted > 0 {
      return Apply;
    }
    var j :| 0 <= j < Jobs(c) && !s.jobs[j].Done?;
    a := if s.jobs[j].Ready? then Fill(j)
         else if s.jobs[j].drawn < |Work(c, s.enemies, j)| then Draw(j) else Finish(j);
  }

  // ---- Termination ----

  /** Steps job j still has to make once it is launched. */
  function Left(c: Config, e: Enemies, j: nat, p: Progress): nat {
    match p
    case Off => |Work(c, e, j)| + 3
    case Ready => |Work(c, e, j)| + 2
    case Drawing(_, k) => if k <= |Work(c, e, j)| then |Work(c, e, j)| - k + 1 else 1
    case Done => 0
  }

  function LeftOver(c: Config, e: Enemies, jobs: seq<Progress>): nat {
    if jobs == [] then 0
    else LeftOver(c, e, jobs[..|jobs| - 1]) + Left(c, e, |jobs| - 1, jobs[|jobs| - 1])
  }

  lemma {:induction false} LeftOverUpdate(c: Config, e: Enemies, jobs: seq<Progress>, j: nat, p: Progress)
    requires j < |jobs|
    ensures LeftOver(c, e, jobs[j := p]) - Left(c, e, j, p) == LeftOver(c, e, jobs) - Left(c, e, j, jobs[j])
  {
    var n := |jobs| - 1;
    if j < n {
      LeftOverUpdate(c, e, jobs[..n], j, p);
      assert jobs[j := p][..n] == jobs[..n][j := p];
    } else {
      assert jobs[j := p][..n] == jobs[..n];
    }
  }

  /** Once begun, every step of an update but its application brings it nearer by exactly one:
      each run applies it after the same number of steps, whatever the interleaving. */
  lemma EveryStepCounts(c: Config, s: State, a: Action)
    requires Inv(c, s) && s.stage.Launching? && Enabled(c, s, a) && !a.Apply?
    ensures Next(c, s, a).enemies == s.enemies && Next(c, s, a).stage.Launching?
    ensures LeftOver(c, s.enemies, Next(c, s, a).jobs) == LeftOver(c, s.enemies, s.jobs) - 1
  {
    hide Sequential;
    hide PaintedBy;
    hide Work;
    hide LeftOver;
    var j := if a.Launch? then s.stage.next else a.job;
    assert JobHolds(c, s, j);
    LeftOverUpdate(c, s.enemies, s.jobs, j, Next(c, s, a).jobs[j]);
  }
}
