/** The state stream as interleaved atomic steps: one engine thread pushes each update to the ring
    and then publishes it to the subscribers; every subscriber's pump replays or takes a
    baseline, drops the overlap and forwards what its slot receives. */
module StreamProtocol {
  import opened Basics
  import opened StreamRing
  import opened StreamSlot

  type ClientId = nat

  /** Publish works in phases: the update is in the ring; the live slots were listed and the rest
      of them is still to be served; a slot refused the update and is about to be evicted. */
  datatype Engine =
    | Idle
    | InRing
    | Publishing(todo: seq<ClientId>)
    | Evicting(slow: ClientId, todo: seq<ClientId>)

  datatype Pump =
    | Starting
    | NeedsBaseline
    | SendingBaseline(head: nat)
    | Replaying(rest: seq<nat>)
    | Live
    | Holding(update: nat)
    | Finished

  /** sent lists the numbers written to the client after the start point, which is the number it
      resumed from or, once a baseline was written, the head the baseline was taken at. */
  datatype Client = Client(
    resume: nat,
    slot: Slot<nat>,
    pump: Pump,
    baseline: bool,
    start: nat,
    lastSent: nat,
    sent: seq<nat>
  )

  datatype State = State(
    history: seq<Entry>,
    ringCapacity: nat,
    slotCapacity: nat,
    engine: Engine,
    registry: seq<ClientId>,
    clients: map<ClientId, Client>
  )

  datatype Action =
    | EnginePush(payload: string)
    | ListLive
    | Deliver
    | EvictSlow
    | PublishDone
    | Subscribe(id: ClientId, resume: nat)
    | AskRing(id: ClientId)
    | ReadHead(id: ClientId)
    | WriteBaseline(id: ClientId)
    | WriteReplay(id: ClientId)
    | Pop(id: ClientId)
    | Forward(id: ClientId)
    | Finish(id: ClientId)
    | Evict(id: ClientId, reason: EvictionReason)
    | Unregister(id: ClientId)

  function Head(s: State): nat {
    HeadSeq(s.history)
  }

  function LiveSlots(registry: seq<ClientId>, clients: map<ClientId, Client>): seq<ClientId> {
    if registry == [] then []
    else
      (if registry[0] in clients && clients[registry[0]].slot.eviction.NotEvicted? then [registry[0]] else [])
      + LiveSlots(registry[1..], clients)
  }

  function Without(registry: seq<ClientId>, id: ClientId): seq<ClientId> {
    if registry == [] then []
    else (if registry[0] == id then [] else [registry[0]]) + Without(registry[1..], id)
  }

  function Numbers(entries: seq<Entry>): seq<nat> {
    seq(|entries|, i requires 0 <= i < |entries| => entries[i].seqNo)
  }

  /** When an action can happen. */
  predicate Enabled(s: State, a: Action) {
    match a
    case EnginePush(_) => s.engine.Idle?
    case ListLive => s.engine.InRing?
    case Deliver => s.engine.Publishing? && s.engine.todo != [] && s.engine.todo[0] in s.clients
    case EvictSlow => s.engine.Evicting? && s.engine.slow in s.clients
    case PublishDone => s.engine.Publishing? && s.engine.todo == []
    case Subscribe(id, resume) => id !in s.clients && resume < U64
    case AskRing(id) => id in s.clients && s.clients[id].pump.Starting?
    case ReadHead(id) => id in s.clients && s.clients[id].pump.NeedsBaseline?
    case WriteBaseline(id) => id in s.clients && s.clients[id].pump.SendingBaseline?
    case WriteReplay(id) => id in s.clients && s.clients[id].pump.Replaying?
    case Pop(id) => id in s.clients && s.clients[id].pump.Live? && s.clients[id].slot.queue != []
    case Forward(id) => id in s.clients && s.clients[id].pump.Holding?
    case Finish(id) => id in s.clients
    case Evict(id, reason) => id in s.clients && !reason.NotEvicted?
    case Unregister(id) => id in s.clients
  }

  /** What the pump of one client does. */
  function PumpStep(s: State, c: Client, a: Action): Client {
    match a
    case AskRing(_) =>
      if c.resume == 0 then c.(pump := NeedsBaseline)
      else
        (match Replay(s.history, s.ringCapacity, c.resume)
         case None => c.(pump := NeedsBaseline)
         case Some(entries) => c.(pump := Replaying(Numbers(entries))))
    case ReadHead(_) => c.(pump := SendingBaseline(Head(s)))
    case WriteBaseline(_) =>
      if c.pump.SendingBaseline? then c.(pump := Live, baseline := true, start := c.pump.head, lastSent := c.pump.head)
      else c
    case WriteReplay(_) =>
      if !c.pump.Replaying? then c
      else if c.pump.rest == [] then c.(pump := Live)
      else c.(pump := Replaying(c.pump.rest[1..]), lastSent := c.pump.rest[0], sent := c.sent + [c.pump.rest[0]])
    case Pop(_) =>
      if c.slot.queue == [] then c
      else c.(pump := Holding(c.slot.queue[0]), slot := c.slot.(queue := c.slot.queue[1..]))
    case Forward(_) =>
      if !c.pump.Holding? then c
      else if c.pump.update <= c.lastSent then c.(pump := Live)
      else c.(pump := Live, lastSent := c.pump.update, sent := c.sent + [c.pump.update])
    case Finish(_) => c.(pump := Finished)
    case Evict(_, reason) => c.(slot := Evicted(c.slot, reason))
    case _ => c
  }

  function Next(s: State, a: Action): State
    requires Enabled(s, a)
  {
    match a
    case EnginePush(payload) => s.(history := s.history + [Entry(|s.history| + 1, payload)], engine := InRing)
    case ListLive => s.(engine := Publishing(LiveSlots(s.registry, s.clients)))
    case Deliver =>
      var id, rest := s.engine.todo[0], s.engine.todo[1..];
      var c := s.clients[id];
      s.(clients := s.clients[id := c.(slot := Pushed(c.slot, s.slotCapacity, Head(s)))],
         engine := if Accepts(c.slot, s.slotCapacity) then Publishing(rest) else Evicting(id, rest))
    case EvictSlow =>
      var c := s.clients[s.engine.slow];
      s.(clients := s.clients[s.engine.slow := c.(slot := Evicted(c.slot, SlowConsumer))],
         engine := Publishing(s.engine.todo))
    case PublishDone => s.(engine := Idle)
    case Subscribe(id, resume) =>
      s.(clients := s.clients[id := Client(resume, Slot([], NotEvicted, 0), Starting, false, resume, resume, [])],
         registry := s.registry + [id])
    case Unregister(id) => s.(registry := Without(s.registry, id))
    case _ => s.(clients := s.clients[a.id := PumpStep(s, s.clients[a.id], a)])
  }

  // ---- The invariant ----

  ghost predicate NoRepeats(ids: seq<ClientId>) {
    forall i, j | 0 <= i < j < |ids| :: ids[i] != ids[j]
  }

  function Todo(e: Engine): seq<ClientId> {
    if e.Publishing? || e.Evicting? then e.todo else []
  }

  /** The number the engine will push next to this slot, if it may still push any. */
  function Expected(head: nat, engine: Engine, registry: seq<ClientId>, id: ClientId,
                    eviction: EvictionReason): Option<nat> {
    if !eviction.NotEvicted? || (engine.Evicting? && engine.slow == id) then None
    else if id in Todo(engine) then Some(head)
    else if id !in registry then None
    else if engine.InRing? then Some(head)
    else Some(head + 1)
  }

  /** What the pump holds and what is queued behind it. */
  function Items(c: Client): seq<nat> {
    if c.pump.Holding? then [c.pump.update] + c.slot.queue else c.slot.queue
  }

  /** The number up to which the client is served from outside its slot; none before the ring is read. */
  function Reached(c: Client): Option<nat> {
    match c.pump
    case SendingBaseline(h) => Some(h)
    case Replaying(rest) => Some(c.lastSent + |rest|)
    case Live => Some(c.lastSent)
    case Holding(_) => Some(c.lastSent)
    case _ => None
  }

  ghost predicate Run(ns: seq<nat>, first: nat) {
    forall i | 0 <= i < |ns| :: ns[i] == first + i
  }

  /** Slot contents and future pushes together continue, without a gap, what the client has. */
  ghost predicate Covered(c: Client, head: nat, expected: Option<nat>) {
    var items := Items(c);
    && (items != [] ==> Run(items, items[0]) && items[|items| - 1] <= head)
    && (items != [] && expected.Some? ==> items[|items| - 1] + 1 == expected.value)
    && (Reached(c).Some? ==>
          && Reached(c).value <= head
          && (items != [] ==> items[0] <= Reached(c).value + 1)
          && (items == [] && expected.Some? ==> expected.value <= Reached(c).value + 1))
  }

  /** The client has received start + 1, start + 2, ..., lastSent, and nothing else. */
  ghost predicate GapFree(c: Client) {
    Run(c.sent, c.start + 1) && c.lastSent == c.start + |c.sent|
  }

  ghost predicate ClientHolds(c: Client, head: nat, expected: Option<nat>) {
    && GapFree(c) && c.resume < U64
    && (c.pump.Starting? || c.pump.NeedsBaseline? || c.pump.SendingBaseline? ==> c.sent == [] && !c.baseline)
    && (if c.baseline then c.start <= head else c.start == c.resume)
    && (c.pump.Replaying? ==> Run(c.pump.rest, c.lastSent + 1))
    && Covered(c, head, expected)
  }

  ghost predicate EngineHolds(s: State) {
    && Consecutive(s.history)
    && NoRepeats(s.registry) && NoRepeats(Todo(s.engine))
    && (forall id | id in s.registry || id in Todo(s.engine) :: id in s.clients)
    && (s.engine.Evicting? ==> s.engine.slow in s.clients && s.engine.slow !in s.engine.todo)
    && (!s.engine.Idle? ==> s.history != [])
  }

  ghost predicate ClientHoldsIn(s: State, id: ClientId)
    requires id in s.clients
  {
    ClientHolds(s.clients[id], Head(s), Expected(Head(s), s.engine, s.registry, id, s.clients[id].slot.eviction))
  }

  ghost predicate Inv(s: State) {
    EngineHolds(s) && forall id | id in s.clients :: ClientHoldsIn(s, id)
  }

  ghost predicate Init(s: State) {
    s.history == [] && s.engine.Idle? && s.registry == [] && s.clients == map[]
  }

  // ---- Steps of one pump ----

  predicate IsPumpStep(a: Action) {
    a.AskRing? || a.ReadHead? || a.WriteBaseline? || a.WriteReplay? || a.Pop? || a.Forward? || a.Finish? || a.Evict?
  }

  lemma AskRingKeeps(s: State, c: Client, id: ClientId, expected: Option<nat>)
    requires Consecutive(s.history) && c.pump.Starting? && ClientHolds(c, Head(s), expected)
    requires expected.Some? ==> expected.value <= Head(s) + 1
    ensures ClientHolds(PumpStep(s, c, AskRing(id)), Head(s), expected)
  {
    if c.resume > 0 {
      ReplayIsExact(s.history, s.ringCapacity, c.resume);
    }
  }

  lemma PopKeeps(c: Client, head: nat, expected: Option<nat>)
    requires ClientHolds(c, head, expected) && c.pump.Live? && c.slot.queue != []
    ensures var slot := c.slot.(queue := c.slot.queue[1..]);
      ClientHolds(c.(pump := Holding(c.slot.queue[0]), slot := slot), head, expected)
  {
    assert [c.slot.queue[0]] + c.slot.queue[1..] == c.slot.queue;
  }

  lemma ForwardKeeps(s: State, c: Client, id: ClientId, head: nat, expected: Option<nat>)
    requires ClientHolds(c, head, expected) && c.pump.Holding?
    ensures ClientHolds(PumpStep(s, c, Forward(id)), head, expected)
  {
    var items, queue := Items(c), c.slot.queue;
    assert items[1..] == queue && items[0] == c.pump.update;
    if queue != [] {
      assert queue[0] == items[1] == c.pump.update + 1 && queue[|queue| - 1] == items[|items| - 1];
      assert Run(queue, queue[0]);
    }
  }

  lemma WriteReplayKeeps(s: State, c: Client, id: ClientId, head: nat, expected: Option<nat>)
    requires ClientHolds(c, head, expected) && c.pump.Replaying?
    ensures ClientHolds(PumpStep(s, c, WriteReplay(id)), head, expected)
  {
  }

  lemma BaselineKeeps(s: State, c: Client, id: ClientId, expected: Option<nat>)
    requires ClientHolds(c, Head(s), expected) && (expected.Some? ==> expected.value <= Head(s) + 1)
    ensures c.pump.NeedsBaseline? ==> ClientHolds(PumpStep(s, c, ReadHead(id)), Head(s), expected)
    ensures c.pump.SendingBaseline? ==> ClientHolds(PumpStep(s, c, WriteBaseline(id)), Head(s), expected)
  {
  }

  lemma FinishKeeps(c: Client, head: nat, expected: Option<nat>)
    requires ClientHolds(c, head, expected)
    ensures ClientHolds(c.(pump := Finished), head, expected)
  {
    if c.pump.Holding? {
      assert Items(c)[1..] == c.slot.queue;
    }
  }

  lemma EvictionKeeps(c: Client, slot: Slot<nat>, head: nat, expected: Option<nat>)
    requires ClientHolds(c, head, expected) && slot.queue == c.slot.queue
    ensures ClientHolds(c.(slot := slot), head, None) && ClientHolds(c.(slot := slot), head, expected)
  {
  }

  lemma PumpStepKeeps(s: State, id: ClientId, a: Action)
    requires Consecutive(s.history) && id in s.clients && ClientHoldsIn(s, id)
    requires IsPumpStep(a) && Enabled(s, a) && a.id == id
    ensures var c' := PumpStep(s, s.clients[id], a);
      ClientHolds(c', Head(s), Expected(Head(s), s.engine, s.registry, id, c'.slot.eviction))
  {
    hide ClientHolds;
    var c := s.clients[id];
    var e := Expected(Head(s), s.engine, s.registry, id, c.slot.eviction);
    match a
    case AskRing(_) => AskRingKeeps(s, c, id, e);
    case ReadHead(_) => BaselineKeeps(s, c, id, e);
    case WriteBaseline(_) => BaselineKeeps(s, c, id, e);
    case WriteReplay(_) => WriteReplayKeeps(s, c, id, Head(s), e);
    case Pop(_) => PopKeeps(c, Head(s), e);
    case Forward(_) => ForwardKeeps(s, c, id, Head(s), e);
    case Finish(_) => FinishKeeps(c, Head(s), e);
    case Evict(_, reason) => EvictionKeeps(c, Evicted(c.slot, reason), Head(s), e);
  }

  /** A pump step changes nothing that another client's invariant reads. */
  lemma PumpActionKeepsInv(s: State, a: Action)
    requires Inv(s) && IsPumpStep(a) && Enabled(s, a)
    ensures Inv(Next(s, a))
  {
    hide ClientHolds;
    assert ClientHoldsIn(s, a.id);
    PumpStepKeeps(s, a.id, a);
    var s' := Next(s, a);
    forall id | id in s'.clients
      ensures ClientHoldsIn(s', id)
    {
      assert id != a.id ==> ClientHoldsIn(s, id);
    }
  }

  // ---- Steps of the engine and the registry ----

  /** A larger head leaves a client's invariant in place as long as the same push is expected. */
  lemma SameExpectation(c: Client, head: nat, head': nat, expected: Option<nat>, expected': Option<nat>)
    requires ClientHolds(c, head, expected) && head <= head' && (expected' == expected || expected'.None?)
    ensures ClientHolds(c, head', expected')
  {
  }

  lemma {:induction false} LiveAreRegistered(registry: seq<ClientId>, clients: map<ClientId, Client>)
    requires NoRepeats(registry) && forall id | id in registry :: id in clients
    ensures NoRepeats(LiveSlots(registry, clients))
    ensures forall id :: id in LiveSlots(registry, clients) <==> id in registry && clients[id].slot.eviction.NotEvicted?
  {
    if registry != [] {
      LiveAreRegistered(registry[1..], clients);
      assert registry == [registry[0]] + registry[1..];
    }
  }

  lemma {:induction false} WithoutOne(registry: seq<ClientId>, id: ClientId)
    requires NoRepeats(registry)
    ensures NoRepeats(Without(registry, id))
    ensures forall x :: x in Without(registry, id) <==> x in registry && x != id
  {
    if registry != [] {
      var rest := Without(registry[1..], id);
      WithoutOne(registry[1..], id);
      assert registry == [registry[0]] + registry[1..];
      assert registry[0] !in registry[1..];
      assert forall i | 0 <= i < |rest| :: rest[i] in rest;
    }
  }

  /** Steps that change no slot keep every client's expectation, or end it. */
  lemma EngineActionKeepsInv(s: State, a: Action)
    requires Inv(s) && Enabled(s, a) && (a.EnginePush? || a.ListLive? || a.PublishDone? || a.Unregister?)
    ensures Inv(Next(s, a))
  {
    hide ClientHolds;
    var s' := Next(s, a);
    if a.ListLive? {
      LiveAreRegistered(s.registry, s.clients);
    } else if a.Unregister? {
      WithoutOne(s.registry, a.id);
    }
    forall id | id in s'.clients
      ensures ClientHoldsIn(s', id)
    {
      assert ClientHoldsIn(s, id);
      var eviction := s.clients[id].slot.eviction;
      SameExpectation(s.clients[id], Head(s), Head(s'),
                      Expected(Head(s), s.engine, s.registry, id, eviction),
                      Expected(Head(s'), s'.engine, s'.registry, id, eviction));
    }
  }

  lemma PushKeeps(c: Client, slotCapacity: nat, head: nat)
    requires ClientHolds(c, head, Some(head)) && Accepts(c.slot, slotCapacity)
    ensures ClientHolds(c.(slot := Pushed(c.slot, slotCapacity, head)), head, Some(head + 1))
  {
    var c' := c.(slot := Pushed(c.slot, slotCapacity, head));
    assert Items(c') == Items(c) + [head];
  }

  /** The slot that is served: it took the update, or is about to be evicted. */
  lemma ServedClientHolds(s: State, id: ClientId, rest: seq<ClientId>)
    requires id in s.clients && ClientHoldsIn(s, id) && s.engine == Publishing([id] + rest) && id !in rest
    ensures var slot := Pushed(s.clients[id].slot, s.slotCapacity, Head(s));
      var engine' := if Accepts(s.clients[id].slot, s.slotCapacity) then Publishing(rest) else Evicting(id, rest);
      ClientHolds(s.clients[id].(slot := slot), Head(s), Expected(Head(s), engine', s.registry, id, slot.eviction))
  {
    hide ClientHolds;
    var c := s.clients[id];
    if Accepts(c.slot, s.slotCapacity) {
      PushKeeps(c, s.slotCapacity, Head(s));
      SameExpectation(c.(slot := Pushed(c.slot, s.slotCapacity, Head(s))), Head(s), Head(s), Some(Head(s) + 1),
                      Expected(Head(s), Publishing(rest), s.registry, id, c.slot.eviction));
    } else {
      EvictionKeeps(c, Pushed(c.slot, s.slotCapacity, Head(s)), Head(s),
                    Expected(Head(s), s.engine, s.registry, id, c.slot.eviction));
    }
  }

  lemma DeliverKeepsInv(s: State)
    requires Inv(s) && Enabled(s, Deliver)
    ensures Inv(Next(s, Deliver))
  {
    hide ClientHolds;
    hide Pushed;
    hide Accepts;
    var s' := Next(s, Deliver);
    var first, rest := s.engine.todo[0], s.engine.todo[1..];
    assert s.engine.todo == [first] + rest && first !in rest;
    assert ClientHoldsIn(s, first);
    ServedClientHolds(s, first, rest);
    forall id | id in s'.clients
      ensures ClientHoldsIn(s', id)
    {
      assert ClientHoldsIn(s, id);
    }
  }

  lemma EvictSlowKeepsInv(s: State)
    requires Inv(s) && Enabled(s, EvictSlow)
    ensures Inv(Next(s, EvictSlow))
  {
    hide ClientHolds;
    var s' := Next(s, EvictSlow);
    forall id | id in s'.clients
      ensures ClientHoldsIn(s', id)
    {
      assert ClientHoldsIn(s, id);
      if id == s.engine.slow {
        EvictionKeeps(s.clients[id], s'.clients[id].slot, Head(s),
                      Expected(Head(s), s.engine, s.registry, id, s.clients[id].slot.eviction));
      }
    }
  }

  lemma SubscribeKeepsInv(s: State, a: Action)
    requires Inv(s) && a.Subscribe? && Enabled(s, a)
    ensures Inv(Next(s, a))
  {
    var s' := Next(s, a);
    forall id | id in s'.clients
      ensures ClientHoldsIn(s', id)
    {
      if id != a.id {
        assert ClientHoldsIn(s, id);
        hide ClientHolds;
      }
    }
  }

  lemma NextKeepsInv(s: State, a: Action)
    requires Inv(s) && Enabled(s, a)
    ensures Inv(Next(s, a))
  {
    hide Inv;
    if IsPumpStep(a) {
      PumpActionKeepsInv(s, a);
    } else {
      match a
      case Deliver => DeliverKeepsInv(s);
      case EvictSlow => EvictSlowKeepsInv(s);
      case Subscribe(_, _) => SubscribeKeepsInv(s, a);
      case _ => EngineActionKeepsInv(s, a);
    }
  }

  // ---- Every run ----

  ghost predicate Steps(states: seq<State>, actions: seq<Action>) {
    && |states| == |actions| + 1
    && forall i | 0 <= i < |actions| :: Enabled(states[i], actions[i]) && states[i + 1] == Next(states[i], actions[i])
  }

  ghost predicate IsRun(states: seq<State>, actions: seq<Action>) {
    Steps(states, actions) && Init(states[0])
  }

  lemma {:induction false} StepsKeepInv(states: seq<State>, actions: seq<Action>, n: nat)
    requires Steps(states, actions) && Inv(states[0]) && n < |states|
    ensures Inv(states[n])
  {
    hide Inv;
    if n > 0 {
      StepsKeepInv(states, actions, n - 1);
      NextKeepsInv(states[n - 1], actions[n - 1]);
      assert states[n - 1 + 1] == Next(states[n - 1], actions[n - 1]);
    }
  }

  lemma RunsKeepInv(states: seq<State>, actions: seq<Action>, n: nat)
    requires IsRun(states, actions) && n < |states|
    ensures Inv(states[n])
  {
    assert Inv(states[0]);
    hide Inv;
    StepsKeepInv(states, actions, n);
  }

  /** In every run, whatever the interleaving, joins, lags and evictions: each client has received
      exactly start + 1, start + 2, ... in order, where start is the number it resumed from or the
      head its baseline was taken at. */
  lemma StreamIsGapFree(states: seq<State>, actions: seq<Action>, n: nat, id: ClientId)
    requires IsRun(states, actions) && n < |states| && id in states[n].clients
    ensures var c := states[n].clients[id];
      && (forall i | 0 <= i < |c.sent| :: c.sent[i] == c.start + 1 + i)
      && (if c.baseline then c.start <= |states[n].history| else c.start == c.resume)
  {
    RunsKeepInv(states, actions, n);
    assert ClientHoldsIn(states[n], id);
  }

  /** Nothing is withheld either: a live, registered client whose queue is drained while the
      engine is idle has received everything up to the head. */
  lemma DrainedClientIsCurrent(states: seq<State>, actions: seq<Action>, n: nat, id: ClientId)
    requires IsRun(states, actions) && n < |states| && id in states[n].clients && id in states[n].registry
    requires states[n].engine.Idle? && states[n].clients[id].pump.Live?
    requires states[n].clients[id].slot.queue == [] && states[n].clients[id].slot.eviction.NotEvicted?
    ensures states[n].clients[id].lastSent == |states[n].history|
    ensures states[n].clients[id].start + |states[n].clients[id].sent| == |states[n].history|
  {
    RunsKeepInv(states, actions, n);
    assert ClientHoldsIn(states[n], id);
  }

  /** The payloads of the updates pushed in the first n steps. */
  function Payloads(actions: seq<Action>, n: nat): seq<string>
    requires n <= |actions|
  {
    if n == 0 then []
    else Payloads(actions, n - 1) + if actions[n - 1].EnginePush? then [actions[n - 1].payload] else []
  }

  /** The history is what the engine pushed, in order and numbered from 1. */
  lemma {:induction false} HistoryIsPushed(states: seq<State>, actions: seq<Action>, n: nat)
    requires IsRun(states, actions) && n < |states|
    ensures |states[n].history| == |Payloads(actions, n)|
    ensures forall i | 0 <= i < |states[n].history| :: states[n].history[i] == Entry(i + 1, Payloads(actions, n)[i])
  {
    if n > 0 {
      HistoryIsPushed(states, actions, n - 1);
      assert Enabled(states[n - 1], actions[n - 1]) && states[n - 1 + 1] == Next(states[n - 1], actions[n - 1]);
    }
  }

  // ---- The bound of the slots ----

  lemma StepKeepsSlotBound(s: State, a: Action)
    requires Enabled(s, a) && forall id | id in s.clients :: |s.clients[id].slot.queue| <= s.slotCapacity
    ensures Next(s, a).slotCapacity == s.slotCapacity
    ensures forall id | id in Next(s, a).clients :: |Next(s, a).clients[id].slot.queue| <= s.slotCapacity
  {
  }

  /** In every run no slot ever holds more than its capacity. */
  lemma {:induction false} SlotsAreBounded(states: seq<State>, actions: seq<Action>, n: nat)
    requires IsRun(states, actions) && n < |states|
    ensures forall id | id in states[n].clients :: |states[n].clients[id].slot.queue| <= states[n].slotCapacity
  {
    hide Next;
    hide Enabled;
    if n > 0 {
      SlotsAreBounded(states, actions, n - 1);
      assert states[n - 1 + 1] == Next(states[n - 1], actions[n - 1]);
      StepKeepsSlotBound(states[n - 1], actions[n - 1]);
    }
  }

  /** A slot that is offered an update takes it exactly when it is live and has room; only otherwise does the engine
      go on to evict it. */
  lemma DeliveryIsExact(states: seq<State>, actions: seq<Action>, n: nat)
    requires IsRun(states, actions) && n < |actions| && actions[n].Deliver?
    ensures var s, s' := states[n], states[n + 1];
      && s.engine.Publishing? && s.engine.todo != [] && s.engine.todo[0] in s.clients
      && s'.clients.Keys == s.clients.Keys
      && var slot, slot' := s.clients[s.engine.todo[0]].slot, s'.clients[s.engine.todo[0]].slot;
      && slot'.eviction == slot.eviction
      && if slot.eviction.NotEvicted? && |slot.queue| < s.slotCapacity then
           slot'.queue == slot.queue + [|s.history|] && s'.engine == Publishing(s.engine.todo[1..])
         else slot'.queue == slot.queue && s'.engine == Evicting(s.engine.todo[0], s.engine.todo[1..])
  {
    RunsKeepInv(states, actions, n);
    assert states[n + 1] == Next(states[n], actions[n]) && Enabled(states[n], actions[n]);
  }

  /** Whether the last of the first n steps about the client's registration was its subscription. */
  predicate Subscribed(actions: seq<Action>, n: nat, id: ClientId)
    requires n <= |actions|
  {
    if n == 0 then false
    else if actions[n - 1].Subscribe? && actions[n - 1].id == id then true
    else if actions[n - 1].Unregister? && actions[n - 1].id == id then false
    else Subscribed(actions, n - 1, id)
  }

  /** In every run exactly the clients that have subscribed and not unsubscribed are registered. */
  lemma {:induction false} RegistryIsExact(states: seq<State>, actions: seq<Action>, n: nat, id: ClientId)
    requires IsRun(states, actions) && n < |states|
    ensures id in states[n].registry <==> Subscribed(actions, n, id)
  {
    if n > 0 {
      RegistryIsExact(states, actions, n - 1, id);
      RunsKeepInv(states, actions, n - 1);
      hide ClientHoldsIn;
      if actions[n - 1].Unregister? {
        WithoutOne(states[n - 1].registry, actions[n - 1].id);
      }
      assert Enabled(states[n - 1], actions[n - 1]) && states[n - 1 + 1] == Next(states[n - 1], actions[n - 1]);
    }
  }

  /** In every run a live slot is evicted exactly by its client's or the service's eviction, for the reason given, or
      by the engine that found it full, as a slow consumer. */
  lemma EvictionIsExact(states: seq<State>, actions: seq<Action>, n: nat, id: ClientId)
    requires IsRun(states, actions) && n < |actions| && id in states[n].clients
    requires states[n].clients[id].slot.eviction.NotEvicted?
    ensures id in states[n + 1].clients
    ensures states[n + 1].clients[id].slot.eviction ==
      match actions[n]
      case Evict(who, reason) => if who == id then reason else NotEvicted
      case EvictSlow => if states[n].engine.Evicting? && states[n].engine.slow == id then SlowConsumer else NotEvicted
      case _ => NotEvicted
  {
    assert Enabled(states[n], actions[n]) && states[n + 1] == Next(states[n], actions[n]);
  }

  // ---- Resuming ----

  /** The way of a client that asked the ring when h updates had been pushed. Resuming, it never gets a baseline and
      goes on from the number it named; otherwise it is sent nothing but on top of a baseline no older than h. Either
      way it goes live only once it has everything up to h. */
  ghost predicate OnItsWay(c: Client, resume: nat, resumes: bool, h: nat) {
    && c.resume == resume && !c.pump.Starting?
    && (c.pump.Replaying? ==> c.lastSent + |c.pump.rest| >= h)
    && (c.pump.Live? || c.pump.Holding? ==> c.lastSent >= h)
    && if resumes then !c.baseline && c.start == resume && !c.pump.NeedsBaseline? && !c.pump.SendingBaseline?
       else
         && !c.pump.Replaying? && (c.pump.SendingBaseline? ==> c.pump.head >= h)
         && (c.baseline ==> c.start >= h) && (c.pump.Live? || c.pump.Holding? || c.sent != [] ==> c.baseline)
  }

  lemma StepStaysOnItsWay(s: State, a: Action, id: ClientId, resume: nat, resumes: bool, h: nat)
    requires Inv(s) && Enabled(s, a) && id in s.clients && OnItsWay(s.clients[id], resume, resumes, h)
    requires h <= |s.history|
    ensures id in Next(s, a).clients && OnItsWay(Next(s, a).clients[id], resume, resumes, h)
    ensures h <= |Next(s, a).history|
  {
    hide ClientHolds;
    hide Expected;
    assert ClientHoldsIn(s, id);
    ReplayGoesOn(s.clients[id], Head(s), Expected(Head(s), s.engine, s.registry, id, s.clients[id].slot.eviction));
  }

  lemma ReplayGoesOn(c: Client, head: nat, expected: Option<nat>)
    requires ClientHolds(c, head, expected)
    ensures c.pump.Replaying? && c.pump.rest != [] ==> c.pump.rest[0] == c.lastSent + 1
  {
  }

  lemma {:induction false} StaysOnItsWay(states: seq<State>, actions: seq<Action>, id: ClientId, m: nat, n: nat,
                                         resume: nat, resumes: bool, h: nat)
    requires IsRun(states, actions) && m <= n < |states| && id in states[m].clients && h <= |states[m].history|
    requires OnItsWay(states[m].clients[id], resume, resumes, h)
    ensures id in states[n].clients && OnItsWay(states[n].clients[id], resume, resumes, h)
    ensures h <= |states[n].history|
  {
    hide OnItsWay;
    hide Next;
    hide Enabled;
    hide Inv;
    if m < n {
      StaysOnItsWay(states, actions, id, m, n - 1, resume, resumes, h);
      RunsKeepInv(states, actions, n - 1);
      assert states[n - 1 + 1] == Next(states[n - 1], actions[n - 1]);
      StepStaysOnItsWay(states[n - 1], actions[n - 1], id, resume, resumes, h);
    }
  }

  /** In every run, a client that asks the ring when h updates have been pushed is replayed if and only if it named a
      number, no greater than h, whose successors the ring still holds; the one number whose successor is 0 in 64
      bits is not served. It then goes on from that number for good, and otherwise from a baseline. */
  lemma ResumeIsHonoured(states: seq<State>, actions: seq<Action>, m: nat, n: nat, id: ClientId)
    requires IsRun(states, actions) && m < n < |states| && actions[m] == AskRing(id)
    ensures id in states[m].clients && id in states[m + 1].clients && id in states[n].clients
    ensures var c, h := states[m].clients[id], |states[m].history|;
      var resumes := 0 < c.resume <= h <= c.resume + states[m].ringCapacity && c.resume != U64 - 1;
      && (states[m + 1].clients[id].pump.NeedsBaseline? <==> !resumes)
      && OnItsWay(states[n].clients[id], c.resume, resumes, h)
  {
    RunsKeepInv(states, actions, m);
    assert Enabled(states[m], actions[m]) && states[m + 1] == Next(states[m], actions[m]);
    var c, h := states[m].clients[id], |states[m].history|;
    var resumes := 0 < c.resume <= h <= c.resume + states[m].ringCapacity && c.resume != U64 - 1;
    AskRingIsExact(states[m], id);
    hide Next;
    hide Enabled;
    StaysOnItsWay(states, actions, id, m + 1, n, c.resume, resumes, h);
  }

  lemma AskRingIsExact(s: State, id: ClientId)
    requires Inv(s) && Enabled(s, AskRing(id))
    ensures var c, c', h := s.clients[id], Next(s, AskRing(id)).clients[id], |s.history|;
      var resumes := 0 < c.resume <= h <= c.resume + s.ringCapacity && c.resume != U64 - 1;
      (c'.pump.NeedsBaseline? <==> !resumes) && OnItsWay(c', c.resume, resumes, h)
  {
    assert ClientHoldsIn(s, id);
    var c, h := s.clients[id], |s.history|;
    ReplayIsExact(s.history, s.ringCapacity, c.resume);
    assert Overwritten(s.history, s.ringCapacity, c.resume) <==> c.resume < h - s.ringCapacity by {
      if c.resume < h - s.ringCapacity {
        assert s.history[h - s.ringCapacity - 1].seqNo > c.resume;
      }
    }
  }

  // ---- Leaving ----

  /** An evicted slot receives nothing more; its client drains what is queued. */
  lemma EvictedSlotOnlyDrains(s: State, a: Action, id: ClientId)
    requires Enabled(s, a) && id in s.clients && !s.clients[id].slot.eviction.NotEvicted?
    ensures var slot, slot' := s.clients[id].slot, Next(s, a).clients[id].slot;
      slot'.eviction == slot.eviction && (slot'.queue == slot.queue || [slot.queue[0]] + slot'.queue == slot.queue)
  {
  }

  /** The engine is about to call TryPush on this slot. */
  predicate Offered(s: State, id: ClientId) {
    s.engine.Publishing? && s.engine.todo != [] && s.engine.todo[0] == id && id in s.clients
  }

  /** A slot outside the registry stays outside, and its place in the list of the publication under way only
      shrinks: it is gone once the slot is offered the update. */
  lemma LeftSlotStaysOut(s: State, a: Action, id: ClientId)
    requires Inv(s) && Enabled(s, a) && id in s.clients && id !in s.registry
    ensures id in Next(s, a).clients && id !in Next(s, a).registry
    ensures id in Todo(Next(s, a).engine) ==> id in Todo(s.engine) && !(a.Deliver? && Offered(s, id))
  {
    hide ClientHolds;
    LiveAreRegistered(s.registry, s.clients);
    if a.Unregister? {
      WithoutOne(s.registry, a.id);
    }
  }

  /** How often the slot is offered an update from moment m to moment n. */
  ghost function Offers(states: seq<State>, actions: seq<Action>, id: ClientId, m: nat, n: nat): nat
    requires m <= n <= |actions| && n <= |states|
  {
    if m == n then 0
    else Offers(states, actions, id, m, n - 1) + if actions[n - 1].Deliver? && Offered(states[n - 1], id) then 1 else 0
  }

  /** After a slot has left the registry it is offered an update at most once more, and only if the publication
      under way at that moment has listed it. */
  lemma {:induction false} LeftSlotIsOfferedAtMostOnce(states: seq<State>, actions: seq<Action>, id: ClientId,
                                                       m: nat, n: nat)
    requires Steps(states, actions) && Inv(states[0]) && m <= n < |states|
    requires id in states[m].clients && id !in states[m].registry
    ensures id in states[n].clients && id !in states[n].registry
    ensures Offers(states, actions, id, m, n) + (if id in Todo(states[n].engine) then 1 else 0)
         <= if id in Todo(states[m].engine) then 1 else 0
  {
    hide Next;
    hide Enabled;
    hide Inv;
    if m < n {
      LeftSlotIsOfferedAtMostOnce(states, actions, id, m, n - 1);
      StepsKeepInv(states, actions, n - 1);
      assert states[n - 1 + 1] == Next(states[n - 1], actions[n - 1]);
      LeftSlotStaysOut(states[n - 1], actions[n - 1], id);
      OfferedIsListed(states[n - 1], id);
    }
  }

  lemma OfferedIsListed(s: State, id: ClientId)
    ensures Offered(s, id) ==> id in Todo(s.engine)
  {
  }

  /** A listed slot can still be offered the update: the engine only has to go on. */
  lemma {:induction false} ListedSlotCanBeOffered(s: State, id: ClientId)
    returns (states: seq<State>, actions: seq<Action>)
    requires Inv(s) && id in Todo(s.engine)
    ensures Steps(states, actions) && states[0] == s && Offered(states[|actions|], id)
    decreases |Todo(s.engine)|, s.engine.Evicting?
  {
    hide ClientHolds;
    if Offered(s, id) {
      states, actions := [s], [];
    } else {
      var a := if s.engine.Evicting? then EvictSlow else Deliver;
      NextKeepsInv(s, a);
      var rest, more := ListedSlotCanBeOffered(Next(s, a), id);
      states, actions := [s] + rest, [a] + more;
      forall i | 0 <= i < |actions|
        ensures Enabled(states[i], actions[i]) && states[i + 1] == Next(states[i], actions[i])
      {
        assert i > 0 ==> rest[i - 1 + 1] == Next(rest[i - 1], more[i - 1]);
      }
    }
  }

  /** Some continuation offers the slot an update. */
  ghost predicate CanBeOffered(s: State, id: ClientId) {
    exists states, actions :: Steps(states, actions) && states[0] == s && Offered(states[|actions|], id)
  }

  /** In every run, from the moment a slot has left the registry: it can still be offered an update if and only if
      the publication under way has listed it, and then once. */
  lemma LeftSlotIsOfferedExactly(states: seq<State>, actions: seq<Action>, n: nat, id: ClientId)
    requires IsRun(states, actions) && n < |states| && id in states[n].clients && id !in states[n].registry
    ensures CanBeOffered(states[n], id) <==> id in Todo(states[n].engine)
    ensures forall m | n <= m < |states| :: Offers(states, actions, id, n, m) <= 1
  {
    assert Inv(states[0]);
    hide Inv;
    hide Next;
    hide Enabled;
    RunsKeepInv(states, actions, n);
    if id in Todo(states[n].engine) {
      var more, steps := ListedSlotCanBeOffered(states[n], id);
    }
    if CanBeOffered(states[n], id) {
      var more, steps :| Steps(more, steps) && more[0] == states[n] && Offered(more[|steps|], id);
      LeftSlotIsOfferedAtMostOnce(more, steps, id, 0, |steps|);
      OfferedIsListed(more[|steps|], id);
    }
    forall m | n <= m < |states|
      ensures Offers(states, actions, id, n, m) <= 1
    {
      LeftSlotIsOfferedAtMostOnce(states, actions, id, n, m);
    }
  }

  lemma RunGoesOn(states: seq<State>, actions: seq<Action>, a: Action)
    requires IsRun(states, actions) && Enabled(states[|actions|], a)
    ensures IsRun(states + [Next(states[|actions|], a)], actions + [a])
  {
    hide Next;
    hide Enabled;
    var states', actions' := states + [Next(states[|actions|], a)], actions + [a];
    forall i | 0 <= i < |actions'|
      ensures Enabled(states'[i], actions'[i]) && states'[i + 1] == Next(states'[i], actions'[i])
    {
      assert i < |actions| ==> states[i + 1] == Next(states[i], actions[i]);
    }
  }

  /** A slot the engine has listed, whose client unsubscribes. */
  lemma UnsubscribedWhileListed(s: State, id: ClientId)
    requires id in s.clients && s.registry == [id] && s.engine == Publishing([id])
    requires s.clients[id].slot.eviction.NotEvicted?
    ensures Enabled(Next(s, Evict(id, Canceled)), Unregister(id))
    ensures var t := Next(Next(s, Evict(id, Canceled)), Unregister(id));
      id in t.clients && t.registry == [] && t.clients[id].slot.eviction.Canceled? && Offered(t, id)
  {
    assert Without([id][1..], id) == [];
  }

  /** A run in which the engine has listed the only slot. */
  lemma ListedRun(id: ClientId) returns (states: seq<State>, actions: seq<Action>)
    ensures IsRun(states, actions) && |actions| == 3 && |states| == 4
    ensures id in states[3].clients && states[3].registry == [id] && states[3].engine == Publishing([id])
    ensures states[3].clients[id].slot.eviction.NotEvicted?
  {
    hide IsRun;
    var s0 := State([], 4, 4, Idle, [], map[]);
    FirstRun(s0);
    RunGoesOn([s0], [], Subscribe(id, 0));
    var s1 := Next(s0, Subscribe(id, 0));
    states, actions := [s0] + [s1], [] + [Subscribe(id, 0)];
    RunGoesOn(states, actions, EnginePush("update"));
    var s2 := Next(s1, EnginePush("update"));
    states, actions := states + [s2], actions + [EnginePush("update")];
    assert s2.registry == [id] && LiveSlots([id][1..], s2.clients) == [];
    RunGoesOn(states, actions, ListLive);
    states, actions := states + [Next(s2, ListLive)], actions + [ListLive];
  }

  /** Such a run: a slot that was evicted and removed by its client is offered the update all the same. */
  lemma UnsubscribedSlotIsStillOffered(id: ClientId) returns (states: seq<State>, actions: seq<Action>)
    ensures IsRun(states, actions) && |actions| == 5 && id in states[5].clients && id !in states[5].registry
    ensures states[5].clients[id].slot.eviction.Canceled? && Offered(states[5], id) && Enabled(states[5], Deliver)
  {
    states, actions := ListedRun(id);
    hide IsRun;
    hide Next;
    UnsubscribedWhileListed(states[3], id);
    RunGoesOn(states, actions, Evict(id, Canceled));
    states, actions := states + [Next(states[3], Evict(id, Canceled))], actions + [Evict(id, Canceled)];
    RunGoesOn(states, actions, Unregister(id));
    states, actions := states + [Next(states[4], Unregister(id))], actions + [Unregister(id)];
  }

  lemma FirstRun(s: State)
    requires Init(s)
    ensures IsRun([s], [])
  {
  }
}
