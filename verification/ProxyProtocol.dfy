/** The proxy as a concurrent protocol: start and stop calls, listener tasks and
    connection handlers, interleaved one critical section at a time. */
module ProxyProtocol {
  import opened Sequences
  import opened ProxyManager

  datatype ListenerPhase = Accepting | Leaving | Finished

  /** A listener task. `signalled` once its shutdown sender has fired or was dropped. */
  datatype Listener = Listener(generation: nat, signalled: bool, aborted: bool, phase: ListenerPhase)

  datatype HandlerPhase = Spawned | Counted | Numbered(id: nat) | Refused | InSession | SessionOver | Done

  /** A connection handler. `epoch` is the counter epoch it was counted in;
      `registered` while the registry counts its session as active. */
  datatype Handler = Handler(listener: nat, epoch: nat, registered: bool, phase: HandlerPhase)

  /** A `stop` call after it released the lock, with the senders it took. */
  datatype StopCall = StopCall(listener: nat, broadcastSent: bool, oneshotSent: bool, abortSent: bool)

  /** `epoch` counts how often `active_connections` was set to zero, `countedAtReset`
      the handlers then between increment and decrement, `staleDecrements` those of
      them that have decremented since. `ids` lists the ids handed out. */
  datatype System = System(
    runtime: Runtime,
    registry: Registry,
    listeners: seq<Listener>,
    handlers: seq<Handler>,
    stops: seq<StopCall>,
    ids: seq<nat>,
    epoch: nat,
    countedAtReset: nat,
    staleDecrements: nat)

  const IDLE := System(IDLE_RUNTIME, FRESH_REGISTRY, [], [], [], [], 0, 0, 0)

  datatype Event =
    | Start(requestedUrl: Option<string>, bound: Option<string>)
    | Stop
    | StopSendsBroadcast(call: nat)
    | StopSendsOneshot(call: nat)
    | StopAborts(call: nat)
    | Accept(l: nat)
    | AcceptFails(l: nat)
    | ListenerLeaves(l: nat)
    | ListenerMarksStopped(l: nat)
    | ListenerKilled(l: nat)
    | HandlerIncrements(h: nat)
    | HandlerTakesId(h: nat)
    | HandlerOpensSession(h: nat)
    | HandlerClosesSession(h: nat)
    | HandlerDecrements(h: nat)
    | RegistryPoisoned

  // -- Counting handlers ---------------------------------------------------------------

  function Sum(handlers: seq<Handler>, weight: Handler -> nat): nat {
    if handlers == [] then 0 else weight(handlers[0]) + Sum(handlers[1..], weight)
  }

  /** Between increment and decrement. */
  predicate IsCounted(h: Handler) { h.phase != Spawned && h.phase != Done }

  function CountedWeight(h: Handler): nat { if IsCounted(h) then 1 else 0 }

  function FreshWeight(epoch: nat): Handler -> nat { (h: Handler) => if IsCounted(h) && h.epoch == epoch then 1 else 0 }

  function StaleWeight(epoch: nat): Handler -> nat { (h: Handler) => if IsCounted(h) && h.epoch < epoch then 1 else 0 }

  function RegisteredWeight(h: Handler): nat { if h.registered then 1 else 0 }

  function CountedHandlers(s: System): nat { Sum(s.handlers, CountedWeight) }

  /** Counted since the counter was last set to zero. */
  function FreshHandlers(s: System): nat { Sum(s.handlers, FreshWeight(s.epoch)) }

  /** Counted before the counter was last set to zero, and still unfinished. */
  function StaleHandlers(s: System): nat { Sum(s.handlers, StaleWeight(s.epoch)) }

  function OpenSessions(s: System): nat { Sum(s.handlers, RegisteredWeight) }

  lemma {:induction false} SumUpdate(handlers: seq<Handler>, i: nat, h: Handler, weight: Handler -> nat)
    requires i < |handlers|
    ensures Sum(handlers[i := h], weight) + weight(handlers[i]) == Sum(handlers, weight) + weight(h)
  {
    if i == 0 {
      assert handlers[i := h][1..] == handlers[1..];
    } else {
      assert handlers[i := h][1..] == handlers[1..][i - 1 := h];
      SumUpdate(handlers[1..], i - 1, h, weight);
    }
  }

  lemma {:induction false} SumAppend(handlers: seq<Handler>, h: Handler, weight: Handler -> nat)
    ensures Sum(handlers + [h], weight) == Sum(handlers, weight) + weight(h)
  {
    if handlers == [] {
      assert [] + [h] == [h];
    } else {
      assert (handlers + [h])[1..] == handlers[1..] + [h];
      SumAppend(handlers[1..], h, weight);
    }
  }

  lemma {:induction false} SumSplits(handlers: seq<Handler>, epoch: nat)
    requires forall h :: h in handlers ==> h.epoch <= epoch
    ensures Sum(handlers, CountedWeight) == Sum(handlers, FreshWeight(epoch)) + Sum(handlers, StaleWeight(epoch))
  {
    if handlers != [] {
      assert handlers[0] in handlers;
      SumSplits(handlers[1..], epoch);
    }
  }

  lemma {:induction false} SumZero(handlers: seq<Handler>, epoch: nat)
    requires forall h :: h in handlers ==> h.epoch < epoch
    ensures Sum(handlers, FreshWeight(epoch)) == 0
  {
    if handlers != [] {
      assert handlers[0] in handlers;
      SumZero(handlers[1..], epoch);
    }
  }

  lemma {:induction false} SumIncludes(handlers: seq<Handler>, i: nat, weight: Handler -> nat)
    requires i < |handlers|
    ensures weight(handlers[i]) <= Sum(handlers, weight)
  {
    if i > 0 {
      SumIncludes(handlers[1..], i - 1, weight);
    }
  }

  // -- Steps -----------------------------------------------------------------------------

  /** Setting `active_connections` to zero starts a new epoch. */
  function Reset(s: System, runtime: Runtime): System {
    s.(runtime := runtime, epoch := s.epoch + 1, countedAtReset := CountedHandlers(s), staleDecrements := 0)
  }

  function AfterStart(s: System, requestedUrl: Option<string>, bound: Option<string>): System {
    if requestedUrl.None? || s.runtime.isRunning || bound.None? then s
    else
      var runtime := Started(s.runtime, |s.listeners|, bound.value, requestedUrl.value);
      Reset(s, runtime).(listeners := s.listeners + [Listener(runtime.generation, false, false, Accepting)])
  }

  function AfterStop(s: System): System {
    if !s.runtime.isRunning then s
    else
      Reset(s, Stopped(s.runtime)).(
        stops := s.stops + if s.runtime.shutdown.Some?
                           then [StopCall(s.runtime.shutdown.value, false, false, false)] else [])
  }

  function Signal(s: System, l: nat): System {
    if l < |s.listeners| then s.(listeners := s.listeners[l := s.listeners[l].(signalled := true)]) else s
  }

  function SetPhase(s: System, l: nat, phase: ListenerPhase): System
    requires l < |s.listeners|
  {
    s.(listeners := s.listeners[l := s.listeners[l].(phase := phase)])
  }

  /** Clearing `shutdown` drops the sender in it, which ends that listener's wait. */
  function AfterMarkStopped(s: System, l: nat): System
    requires l < |s.listeners|
  {
    var finished := SetPhase(s, l, Finished);
    if s.runtime.generation != s.listeners[l].generation then finished
    else
      var dropped := if s.runtime.shutdown.Some? then Signal(finished, s.runtime.shutdown.value) else finished;
      Reset(dropped, MarkedStopped(s.runtime, s.listeners[l].generation))
  }

  function SetHandler(s: System, h: nat, handler: Handler): System
    requires h < |s.handlers|
  {
    s.(handlers := s.handlers[h := handler])
  }

  function StepStop(s: System, e: Event): System {
    match e
    case StopSendsBroadcast(c) =>
      if c < |s.stops| && !s.stops[c].broadcastSent then
        s.(stops := s.stops[c := s.stops[c].(broadcastSent := true)])
      else s
    case StopSendsOneshot(c) =>
      if c < |s.stops| && s.stops[c].broadcastSent && !s.stops[c].oneshotSent then
        Signal(s.(stops := s.stops[c := s.stops[c].(oneshotSent := true)]), s.stops[c].listener)
      else s
    case StopAborts(c) =>
      if c < |s.stops| && s.stops[c].oneshotSent && !s.stops[c].abortSent then
        var sent := s.(stops := s.stops[c := s.stops[c].(abortSent := true)]);
        var l := s.stops[c].listener;
        if l < |s.listeners| then sent.(listeners := s.listeners[l := s.listeners[l].(aborted := true)]) else sent
      else s
    case _ => s
  }

  function StepListener(s: System, e: Event): System {
    match e
    case Accept(l) =>
      if l < |s.listeners| && s.listeners[l].phase == Accepting then
        s.(handlers := s.handlers + [Handler(l, 0, false, Spawned)])
      else s
    case ListenerLeaves(l) =>
      if l < |s.listeners| && s.listeners[l].phase == Accepting && s.listeners[l].signalled then
        SetPhase(s, l, Leaving)
      else s
    case ListenerMarksStopped(l) =>
      if l < |s.listeners| && s.listeners[l].phase == Leaving then AfterMarkStopped(s, l) else s
    case ListenerKilled(l) =>
      if l < |s.listeners| && s.listeners[l].aborted then SetPhase(s, l, Finished) else s
    case _ => s
  }

  /** A step of a `stop` call after its critical section, or of a listener task. */
  function AfterTaskStep(s: System, e: Event): System { StepListener(StepStop(s, e), e) }

  function AfterIncrement(s: System, h: nat): System {
    if h < |s.handlers| && s.handlers[h].phase == Spawned then
      SetHandler(s, h, s.handlers[h].(phase := Counted, epoch := s.epoch)).(runtime := Incremented(s.runtime))
    else s
  }

  function AfterTakeId(s: System, h: nat): System {
    if h < |s.handlers| && s.handlers[h].phase == Counted then
      SetHandler(s, h, s.handlers[h].(phase := Numbered(s.registry.nextId))).(
        registry := TakeId(s.registry), ids := s.ids + [s.registry.nextId])
    else s
  }

  function AfterOpenSession(s: System, h: nat): System {
    if h < |s.handlers| && s.handlers[h].phase.Numbered? then
      SetHandler(s, h,
                 if s.registry.poisoned then s.handlers[h].(phase := Refused)
                 else s.handlers[h].(phase := InSession, registered := true)).(
        registry := SessionOpened(s.registry))
    else s
  }

  function AfterCloseSession(s: System, h: nat): System {
    if h < |s.handlers| && s.handlers[h].phase == InSession then
      SetHandler(s, h, s.handlers[h].(phase := SessionOver, registered := s.registry.poisoned)).(
        registry := SessionClosed(s.registry))
    else s
  }

  function AfterDecrement(s: System, h: nat): System {
    if h < |s.handlers| && (s.handlers[h].phase == Refused || s.handlers[h].phase == SessionOver) then
      SetHandler(s, h, s.handlers[h].(phase := Done)).(
        runtime := Decremented(s.runtime),
        staleDecrements := s.staleDecrements + if s.handlers[h].epoch < s.epoch then 1 else 0)
    else s
  }

  /** A step of a connection handler. */
  function StepHandler(s: System, e: Event): System {
    match e
    case HandlerIncrements(h) => AfterIncrement(s, h)
    case HandlerTakesId(h) => AfterTakeId(s, h)
    case HandlerOpensSession(h) => AfterOpenSession(s, h)
    case HandlerClosesSession(h) => AfterCloseSession(s, h)
    case HandlerDecrements(h) => AfterDecrement(s, h)
    case _ => s
  }

  function Step(s: System, e: Event): System {
    match e
    case Start(requestedUrl, bound) => AfterStart(s, requestedUrl, bound)
    case Stop => AfterStop(s)
    case RegistryPoisoned => s.(registry := s.registry.(poisoned := true))
    case _ => StepHandler(AfterTaskStep(s, e), e)
  }

  function Run(s: System, events: seq<Event>): System
    decreases |events|
  {
    if events == [] then s else Run(Step(s, events[0]), events[1..])
  }

  // -- Invariants ------------------------------------------------------------------------

  /** The runtime's optional fields are set together and name the newest listener. */
  ghost predicate FieldsAgree(s: System) {
    && (AllSet(s.runtime) || AllUnset(s.runtime))
    && (s.runtime.shutdown.Some? ==>
          && |s.listeners| > 0
          && s.runtime.shutdown == s.runtime.connectionShutdown == s.runtime.task == Some(|s.listeners| - 1)
          && !s.listeners[|s.listeners| - 1].signalled)
  }

  ghost predicate GenerationsCountStarts(s: System) {
    && s.runtime.generation == Saturating(|s.listeners|)
    && forall l :: 0 <= l < |s.listeners| ==> s.listeners[l].generation == Saturating(l + 1)
  }

  /** Some `stop` call took this listener's sender and has not used it yet. */
  ghost predicate SenderTaken(s: System, l: nat) {
    exists c :: 0 <= c < |s.stops| && s.stops[c].listener == l && !s.stops[c].oneshotSent
  }

  ghost predicate SignalsAccountedFor(s: System) {
    && (forall l :: 0 <= l < |s.listeners| && !s.listeners[l].signalled && s.runtime.shutdown != Some(l) ==>
          SenderTaken(s, l))
    && (forall l :: 0 <= l < |s.listeners| && s.listeners[l].phase == Leaving ==> s.listeners[l].signalled)
    && (forall c :: 0 <= c < |s.stops| ==>
          s.stops[c].listener < |s.listeners| && s.runtime.shutdown != Some(s.stops[c].listener))
  }

  ghost predicate CounterBounds(s: System) {
    && (forall h :: h in s.handlers ==> h.epoch <= s.epoch)
    && s.runtime.activeConnections <= FreshHandlers(s)
    && FreshHandlers(s) <= s.runtime.activeConnections + s.staleDecrements
    && s.staleDecrements + StaleHandlers(s) <= s.countedAtReset
  }

  ghost predicate HandlersAreRegistered(handlers: seq<Handler>, poisoned: bool) {
    && (forall h :: h in handlers && h.phase == InSession ==> h.registered)
    && (forall h :: h in handlers && h.registered && h.phase != InSession ==> poisoned)
    && (forall h :: h in handlers && h.phase in {Spawned, Counted, Refused} ==> !h.registered)
    && (forall h :: h in handlers && h.phase.Numbered? ==> !h.registered)
  }

  /** The ids handed out so far, and the next one, count up and wrap around. */
  ghost predicate IdsCountUp(ids: seq<nat>, nextId: nat) {
    && (forall i :: 0 <= i < |ids| ==> ids[i] == (i + 1) % (U64_MAX + 1))
    && nextId == (|ids| + 1) % (U64_MAX + 1)
  }

  ghost predicate RegistryAgrees(s: System) {
    && s.registry.activeSessions == OpenSessions(s)
    && HandlersAreRegistered(s.handlers, s.registry.poisoned)
    && IdsCountUp(s.ids, s.registry.nextId)
  }

  ghost predicate Invariant(s: System) {
    && FieldsAgree(s)
    && GenerationsCountStarts(s)
    && SignalsAccountedFor(s)
    && CounterBounds(s)
    && RegistryAgrees(s)
  }

  lemma ResetKeepsBounds(s: System, runtime: Runtime)
    requires CounterBounds(s) && runtime.activeConnections == 0
    ensures CounterBounds(Reset(s, runtime))
  {
    SumZero(s.handlers, s.epoch + 1);
    SumSplits(s.handlers, s.epoch + 1);
  }

  lemma StartKeeps(s: System, requestedUrl: Option<string>, bound: Option<string>)
    requires Invariant(s)
    ensures Invariant(AfterStart(s, requestedUrl, bound))
  {
    if requestedUrl.Some? && !s.runtime.isRunning && bound.Some? {
      var t := AfterStart(s, requestedUrl, bound);
      ResetKeepsBounds(s, t.runtime);
      SignalsAfterStart(s, t);
    }
  }

  lemma SignalsAfterStart(s: System, t: System)
    requires Invariant(s) && AllUnset(s.runtime)
    requires |t.listeners| == |s.listeners| + 1 && t.listeners[..|s.listeners|] == s.listeners
    requires t.listeners[|s.listeners|].phase == Accepting && t.stops == s.stops
    requires t.runtime.shutdown == Some(|s.listeners|)
    ensures SignalsAccountedFor(t)
  {
    forall l | 0 <= l < |t.listeners| && !t.listeners[l].signalled && t.runtime.shutdown != Some(l)
      ensures SenderTaken(t, l)
    {
      assert s.listeners[l] == t.listeners[l] && SenderTaken(s, l);
    }
    forall l | 0 <= l < |t.listeners| && t.listeners[l].phase == Leaving ensures t.listeners[l].signalled {
      assert s.listeners[l] == t.listeners[l];
    }
  }

  lemma StopKeeps(s: System)
    requires Invariant(s)
    ensures Invariant(AfterStop(s))
  {
    if s.runtime.isRunning {
      ResetKeepsBounds(s, Stopped(s.runtime));
      SignalsAfterStop(s);
    }
  }

  lemma SignalsAfterStop(s: System)
    requires Invariant(s) && s.runtime.isRunning
    ensures SignalsAccountedFor(AfterStop(s))
  {
    var t := AfterStop(s);
    assert t.stops[|s.stops|] == StopCall(s.runtime.shutdown.value, false, false, false);
    forall l | 0 <= l < |t.listeners| && !t.listeners[l].signalled ensures SenderTaken(t, l) {
      if s.runtime.shutdown != Some(l) {
        var c :| 0 <= c < |s.stops| && s.stops[c].listener == l && !s.stops[c].oneshotSent;
        assert t.stops[c] == s.stops[c];
      }
    }
  }

  lemma StopStepKeeps(s: System, e: Event)
    requires Invariant(s)
    ensures Invariant(StepStop(s, e))
  {
    var t := StepStop(s, e);
    if t != s {
      forall l | 0 <= l < |t.listeners| && !t.listeners[l].signalled && t.runtime.shutdown != Some(l)
        ensures SenderTaken(t, l)
      {
        assert SenderTaken(s, l);
        var c :| 0 <= c < |s.stops| && s.stops[c].listener == l && !s.stops[c].oneshotSent;
        assert t.stops[c].listener == l && !t.stops[c].oneshotSent;
      }
    }
  }

  lemma MarkStoppedKeeps(s: System, l: nat)
    requires Invariant(s) && l < |s.listeners| && s.listeners[l].phase == Leaving
    ensures Invariant(AfterMarkStopped(s, l))
  {
    if s.runtime.generation == s.listeners[l].generation {
      ResetKeepsBounds(s, MarkedStopped(s.runtime, s.listeners[l].generation));
    }
    SignalsAfterMarkStopped(s, l);
  }

  lemma SignalsAfterMarkStopped(s: System, l: nat)
    requires Invariant(s) && l < |s.listeners| && s.listeners[l].phase == Leaving
    ensures SignalsAccountedFor(AfterMarkStopped(s, l))
  {
    var t := AfterMarkStopped(s, l);
    forall k | 0 <= k < |t.listeners| && !t.listeners[k].signalled && t.runtime.shutdown != Some(k)
      ensures SenderTaken(t, k)
    {
      assert s.runtime.shutdown != Some(k) && SenderTaken(s, k);
    }
  }

  lemma AcceptKeeps(s: System, l: nat)
    requires Invariant(s)
    ensures Invariant(s.(handlers := s.handlers + [Handler(l, 0, false, Spawned)]))
  {
    var h := Handler(l, 0, false, Spawned);
    SumAppend(s.handlers, h, FreshWeight(s.epoch));
    SumAppend(s.handlers, h, StaleWeight(s.epoch));
    SumAppend(s.handlers, h, RegisteredWeight);
  }

  lemma ListenerStepKeeps(s: System, e: Event)
    requires Invariant(s)
    ensures Invariant(StepListener(s, e))
  {
    match e
    case Accept(l) => AcceptKeeps(s, l);
    case ListenerLeaves(l) => PhaseKeeps(s, l, Leaving);
    case ListenerMarksStopped(l) => if l < |s.listeners| && s.listeners[l].phase == Leaving { MarkStoppedKeeps(s, l); }
    case ListenerKilled(l) => PhaseKeeps(s, l, Finished);
    case _ =>
  }

  lemma PhaseKeeps(s: System, l: nat, phase: ListenerPhase)
    requires Invariant(s)
    ensures l < |s.listeners| && (phase == Leaving ==> s.listeners[l].signalled) ==> Invariant(SetPhase(s, l, phase))
  {
    if l < |s.listeners| && (phase == Leaving ==> s.listeners[l].signalled) {
      var t := SetPhase(s, l, phase);
      forall k | 0 <= k < |t.listeners| && !t.listeners[k].signalled && t.runtime.shutdown != Some(k)
        ensures SenderTaken(t, k)
      {
        assert SenderTaken(s, k);
      }
    }
  }

  lemma HandlerSums(s: System, h: nat, handler: Handler)
    requires h < |s.handlers|
    ensures var t := s.handlers[h := handler];
            && Sum(t, FreshWeight(s.epoch)) + FreshWeight(s.epoch)(s.handlers[h])
               == Sum(s.handlers, FreshWeight(s.epoch)) + FreshWeight(s.epoch)(handler)
            && Sum(t, StaleWeight(s.epoch)) + StaleWeight(s.epoch)(s.handlers[h])
               == Sum(s.handlers, StaleWeight(s.epoch)) + StaleWeight(s.epoch)(handler)
            && Sum(t, RegisteredWeight) + RegisteredWeight(s.handlers[h])
               == Sum(s.handlers, RegisteredWeight) + RegisteredWeight(handler)
  {
    SumUpdate(s.handlers, h, handler, FreshWeight(s.epoch));
    SumUpdate(s.handlers, h, handler, StaleWeight(s.epoch));
    SumUpdate(s.handlers, h, handler, RegisteredWeight);
  }

  lemma IncrementKeeps(s: System, h: nat)
    requires Invariant(s)
    ensures Invariant(AfterIncrement(s, h))
  {
    if h < |s.handlers| && s.handlers[h].phase == Spawned {
      HandlerSums(s, h, s.handlers[h].(phase := Counted, epoch := s.epoch));
    }
  }

  lemma NextIdCountsUp(ids: seq<nat>, registry: Registry)
    requires IdsCountUp(ids, registry.nextId)
    ensures IdsCountUp(ids + [registry.nextId], TakeId(registry).nextId)
  {
  }

  lemma TakeIdKeeps(s: System, h: nat)
    requires Invariant(s)
    ensures Invariant(AfterTakeId(s, h))
  {
    if h < |s.handlers| && s.handlers[h].phase == Counted {
      var numbered := s.handlers[h].(phase := Numbered(s.registry.nextId));
      HandlerSums(s, h, numbered);
      NextIdCountsUp(s.ids, s.registry);
      OneHandlerChanges(s.handlers, h, numbered);
    }
  }

  lemma OneHandlerChanges(handlers: seq<Handler>, h: nat, handler: Handler)
    requires h < |handlers|
    ensures handlers[h] in handlers
    ensures forall x :: x in handlers[h := handler] ==> x == handler || x in handlers
  {
  }

  lemma OpenSessionKeeps(s: System, h: nat)
    requires Invariant(s)
    ensures Invariant(AfterOpenSession(s, h))
  {
    if h < |s.handlers| && s.handlers[h].phase.Numbered? {
      HandlerSums(s, h, AfterOpenSession(s, h).handlers[h]);
    }
  }

  lemma CloseSessionKeeps(s: System, h: nat)
    requires Invariant(s)
    ensures Invariant(AfterCloseSession(s, h))
  {
    if h < |s.handlers| && s.handlers[h].phase == InSession {
      HandlerSums(s, h, AfterCloseSession(s, h).handlers[h]);
      SumIncludes(s.handlers, h, RegisteredWeight);
    }
  }

  lemma DecrementKeeps(s: System, h: nat)
    requires Invariant(s)
    ensures Invariant(AfterDecrement(s, h))
  {
    if h < |s.handlers| && (s.handlers[h].phase == Refused || s.handlers[h].phase == SessionOver) {
      HandlerSums(s, h, s.handlers[h].(phase := Done));
      SumIncludes(s.handlers, h, FreshWeight(s.epoch));
      OneHandlerChanges(s.handlers, h, s.handlers[h].(phase := Done));
    }
  }

  lemma TaskStepKeeps(s: System, e: Event)
    requires Invariant(s)
    ensures Invariant(AfterTaskStep(s, e))
  {
    StopStepKeeps(s, e);
    ListenerStepKeeps(StepStop(s, e), e);
  }

  lemma HandlerStepKeeps(s: System, e: Event)
    requires Invariant(s)
    ensures Invariant(StepHandler(s, e))
  {
    match e
    case HandlerIncrements(h) => IncrementKeeps(s, h);
    case HandlerTakesId(h) => TakeIdKeeps(s, h);
    case HandlerOpensSession(h) => OpenSessionKeeps(s, h);
    case HandlerClosesSession(h) => CloseSessionKeeps(s, h);
    case HandlerDecrements(h) => DecrementKeeps(s, h);
    case _ =>
  }

  lemma PoisonKeeps(s: System)
    requires Invariant(s)
    ensures Invariant(s.(registry := s.registry.(poisoned := true)))
  {
  }

  lemma StepKeepsInvariant(s: System, e: Event)
    requires Invariant(s)
    ensures Invariant(Step(s, e))
  {
    match e
    case Start(requestedUrl, bound) => StartKeeps(s, requestedUrl, bound);
    case Stop => StopKeeps(s);
    case RegistryPoisoned => PoisonKeeps(s);
    case _ =>
      TaskStepKeeps(s, e);
      HandlerStepKeeps(AfterTaskStep(s, e), e);
  }

  lemma {:induction false} RunKeepsInvariant(s: System, events: seq<Event>)
    requires Invariant(s)
    ensures Invariant(Run(s, events))
    decreases |events|
  {
    if events != [] {
      StepKeepsInvariant(s, events[0]);
      RunKeepsInvariant(Step(s, events[0]), events[1..]);
    }
  }

  lemma ReachableInvariant(events: seq<Event>)
    ensures Invariant(Run(IDLE, events))
  {
    RunKeepsInvariant(IDLE, events);
  }

  // -- Main results ------------------------------------------------------------------------

  /** Whenever the lock is free the six fields of a running proxy are all set or all
      unset, and a listener no one has signalled or taken the sender of is the one
      that is running now. */
  lemma RunningStateIsConsistent(events: seq<Event>)
    ensures var s := Run(IDLE, events);
            && (AllSet(s.runtime) || AllUnset(s.runtime))
            && forall l :: 0 <= l < |s.listeners| && !s.listeners[l].signalled && !SenderTaken(s, l) ==>
                 && s.runtime.isRunning && s.runtime.shutdown == Some(l)
                 && s.runtime.generation == s.listeners[l].generation
  {
    ReachableInvariant(events);
  }

  /** While the generation has not saturated, a listener leaving its loop never stops
      a proxy that is running. */
  lemma LateMarkStoppedIsHarmless(events: seq<Event>, l: nat)
    requires var s := Run(IDLE, events);
             l < |s.listeners| && s.listeners[l].phase == Leaving && s.runtime.generation < U64_MAX
    ensures var s := Run(IDLE, events);
            && (s.runtime.isRunning ==> MarkedStopped(s.runtime, s.listeners[l].generation) == s.runtime)
            && (!s.runtime.isRunning ==>
                  MarkedStopped(s.runtime, s.listeners[l].generation)
                  in {s.runtime, s.runtime.(activeConnections := 0)})
  {
    ReachableInvariant(events);
  }

  /** The counter never exceeds the handlers counted since it was last set to zero,
      and falls short of them by at most the leftovers that decremented since. */
  lemma ActiveConnectionsBounds(events: seq<Event>)
    ensures var s := Run(IDLE, events);
            && s.runtime.activeConnections <= FreshHandlers(s) <= CountedHandlers(s)
            && FreshHandlers(s) <= s.runtime.activeConnections + s.staleDecrements
  {
    ReachableInvariant(events);
    var s := Run(IDLE, events);
    SumSplits(s.handlers, s.epoch);
  }

  /** When no handler was unfinished at the last start or stop, the counter is exact. */
  lemma ActiveConnectionsExact(events: seq<Event>)
    requires Run(IDLE, events).countedAtReset == 0
    ensures var s := Run(IDLE, events);
            s.runtime.activeConnections == CountedHandlers(s)
  {
    ReachableInvariant(events);
    var s := Run(IDLE, events);
    SumSplits(s.handlers, s.epoch);
  }

  // -- When the counter stays exact --------------------------------------------------------

  /** The counter is the number of handlers counted since it was last set to zero. */
  predicate Exact(s: System) { s.runtime.activeConnections == FreshHandlers(s) }

  /** The step is a leftover handler's decrement and takes away a connection that was
      counted after the counter was last set to zero. */
  predicate StealsOne(s: System, e: Event) {
    && e.HandlerDecrements? && e.h < |s.handlers|
    && (s.handlers[e.h].phase == Refused || s.handlers[e.h].phase == SessionOver)
    && s.handlers[e.h].epoch < s.epoch && s.runtime.activeConnections > 0
  }

  lemma SameHandlersSameExact(s: System, t: System)
    requires t.handlers == s.handlers && t.epoch == s.epoch
    requires t.runtime.activeConnections == s.runtime.activeConnections
    ensures Exact(t) <==> Exact(s)
  {
  }

  lemma ResetIsExact(s: System, runtime: Runtime)
    requires CounterBounds(s) && runtime.activeConnections == 0
    ensures Exact(Reset(s, runtime))
  {
    SumZero(s.handlers, s.epoch + 1);
  }

  lemma HandlerStaysExact(s: System, h: nat, handler: Handler)
    requires Exact(s) && h < |s.handlers|
    requires IsCounted(handler) && IsCounted(s.handlers[h]) && handler.epoch == s.handlers[h].epoch
    ensures Exact(SetHandler(s, h, handler))
  {
    HandlerSums(s, h, handler);
  }

  lemma IncrementStaysExact(s: System, h: nat)
    requires Exact(s)
    ensures Exact(AfterIncrement(s, h))
  {
    if h < |s.handlers| && s.handlers[h].phase == Spawned {
      HandlerSums(s, h, s.handlers[h].(phase := Counted, epoch := s.epoch));
    }
  }

  lemma SessionStepsStayExact(s: System, h: nat)
    requires Exact(s)
    ensures Exact(AfterTakeId(s, h)) && Exact(AfterOpenSession(s, h)) && Exact(AfterCloseSession(s, h))
  {
    if h < |s.handlers| && s.handlers[h].phase != Spawned && s.handlers[h].phase != Done {
      HandlerStaysExact(s, h, AfterTakeId(s, h).handlers[h]);
      HandlerStaysExact(s, h, AfterOpenSession(s, h).handlers[h]);
      HandlerStaysExact(s, h, AfterCloseSession(s, h).handlers[h]);
    }
  }

  /** A decrement keeps the counter exact unless it takes away another handler's count. */
  lemma DecrementStaysExactIff(s: System, h: nat)
    requires Invariant(s) && Exact(s)
    ensures Exact(AfterDecrement(s, h)) <==> !StealsOne(s, HandlerDecrements(h))
  {
    if h < |s.handlers| && (s.handlers[h].phase == Refused || s.handlers[h].phase == SessionOver) {
      HandlerSums(s, h, s.handlers[h].(phase := Done));
      SumIncludes(s.handlers, h, FreshWeight(s.epoch));
      assert s.handlers[h] in s.handlers;
    }
  }

  lemma StopStepStaysExact(s: System, e: Event)
    requires Exact(s)
    ensures Exact(StepStop(s, e))
  {
    SameHandlersSameExact(s, StepStop(s, e));
  }

  lemma ListenerStepStaysExact(s: System, e: Event)
    requires Invariant(s) && Exact(s)
    ensures Exact(StepListener(s, e))
  {
    match e
    case Accept(l) => SumAppend(s.handlers, Handler(l, 0, false, Spawned), FreshWeight(s.epoch));
    case ListenerMarksStopped(l) =>
      if l < |s.listeners| && s.listeners[l].phase == Leaving {
        if s.runtime.generation == s.listeners[l].generation {
          SumZero(s.handlers, s.epoch + 1);
        }
      }
    case _ => SameHandlersSameExact(s, StepListener(s, e));
  }

  lemma HandlerStepStaysExactIff(s: System, e: Event)
    requires Invariant(s) && Exact(s)
    ensures Exact(StepHandler(s, e)) <==> !StealsOne(s, e)
  {
    match e
    case HandlerIncrements(h) => IncrementStaysExact(s, h);
    case HandlerTakesId(h) => SessionStepsStayExact(s, h);
    case HandlerOpensSession(h) => SessionStepsStayExact(s, h);
    case HandlerClosesSession(h) => SessionStepsStayExact(s, h);
    case HandlerDecrements(h) => DecrementStaysExactIff(s, h);
    case _ =>
  }

  lemma StartStaysExact(s: System, requestedUrl: Option<string>, bound: Option<string>)
    requires Invariant(s) && Exact(s)
    ensures Exact(AfterStart(s, requestedUrl, bound))
  {
    if requestedUrl.Some? && !s.runtime.isRunning && bound.Some? {
      ResetIsExact(s, AfterStart(s, requestedUrl, bound).runtime);
    }
  }

  lemma TaskStepStaysExact(s: System, e: Event)
    requires Invariant(s) && Exact(s)
    ensures Exact(AfterTaskStep(s, e))
  {
    StopStepStaysExact(s, e);
    StopStepKeeps(s, e);
    ListenerStepStaysExact(StepStop(s, e), e);
  }

  lemma TasksIgnoreHandlers(s: System, e: Event)
    ensures e.HandlerDecrements? ==> AfterTaskStep(s, e) == s
  {
  }

  /** Over every kind of step: an exact counter becomes wrong exactly when a leftover
      handler decrements while the counter is not zero. */
  lemma StepStaysExactIff(s: System, e: Event)
    requires Invariant(s) && Exact(s)
    ensures Exact(Step(s, e)) <==> !StealsOne(s, e)
  {
    match e
    case Start(requestedUrl, bound) => StartStaysExact(s, requestedUrl, bound);
    case Stop => ResetIsExact(s, Stopped(s.runtime));
    case RegistryPoisoned => SameHandlersSameExact(s, Step(s, e));
    case _ =>
      TaskStepStaysExact(s, e);
      TaskStepKeeps(s, e);
      HandlerStepStaysExactIff(AfterTaskStep(s, e), e);
      TasksIgnoreHandlers(s, e);
  }

  /** No step of the run takes away a connection. */
  predicate NothingStolen(s: System, events: seq<Event>)
    decreases |events|
  {
    events == [] || (!StealsOne(s, events[0]) && NothingStolen(Step(s, events[0]), events[1..]))
  }

  /** So the counter is exact after every run in which no step does that. */
  lemma {:induction false} RunStaysExact(s: System, events: seq<Event>)
    requires Invariant(s) && Exact(s) && NothingStolen(s, events)
    ensures Exact(Run(s, events))
    decreases |events|
  {
    if events != [] {
      StepStaysExactIff(s, events[0]);
      StepKeepsInvariant(s, events[0]);
      RunStaysExact(Step(s, events[0]), events[1..]);
    }
  }

  /** `active_sessions` is the number of sessions opened and not closed, and closing
      one never saturates. */
  lemma ActiveSessionsExact(events: seq<Event>, h: nat)
    ensures var s := Run(IDLE, events);
            && s.registry.activeSessions == OpenSessions(s)
            && (h < |s.handlers| && s.handlers[h].phase == InSession ==> s.registry.activeSessions > 0)
  {
    ReachableInvariant(events);
    var s := Run(IDLE, events);
    if h < |s.handlers| {
      SumIncludes(s.handlers, h, RegisteredWeight);
      assert s.handlers[h] in s.handlers;
    }
  }

  /** Two session names coincide exactly when the 64-bit counter wrapped in between. */
  lemma SessionIdsDistinct(events: seq<Event>, i: nat, j: nat)
    requires i < j < |Run(IDLE, events).ids|
    ensures var ids := Run(IDLE, events).ids;
            SessionName(ids[i]) == SessionName(ids[j]) <==> (j - i) % (U64_MAX + 1) == 0
  {
    ReachableInvariant(events);
    CountedIdsDiffer(Run(IDLE, events).ids, Run(IDLE, events).registry.nextId, i, j);
  }

  lemma CountedIdsDiffer(ids: seq<nat>, nextId: nat, i: nat, j: nat)
    requires IdsCountUp(ids, nextId) && i < j < |ids|
    ensures SessionName(ids[i]) == SessionName(ids[j]) <==> (j - i) % (U64_MAX + 1) == 0
  {
    WrappedEqual(i + 1, j + 1);
    if ids[i] != ids[j] {
      SessionNamesDiffer(ids[i], ids[j]);
    }
  }

  lemma WrappedEqual(i: nat, j: nat)
    requires i <= j
    ensures i % (U64_MAX + 1) == j % (U64_MAX + 1) <==> (j - i) % (U64_MAX + 1) == 0
  {
  }

  // -- A run on which the counter is wrong -----------------------------------------------

  lemma {:induction false} RunLast(s: System, events: seq<Event>, e: Event)
    ensures Run(s, events + [e]) == Step(Run(s, events), e)
    decreases |events|
  {
    if events == [] {
      assert [] + [e] == [e] && [e][1..] == [];
      assert Run(Step(s, e), [e][1..]) == Step(s, e);
    } else {
      assert (events + [e])[1..] == events[1..] + [e];
      RunLast(Step(s, events[0]), events[1..], e);
    }
  }

  const START := Start(Some("ws://target"), Some("ws://local"))

  lemma OneAccepted() returns (events: seq<Event>)
    ensures var s := Run(IDLE, events);
            && s.handlers == [Handler(0, 0, false, Spawned)] && s.epoch == 1 && s.runtime.isRunning
            && s.registry == FRESH_REGISTRY && |s.listeners| == 1
  {
    RunLast(IDLE, [], START);
    events := [] + [START];
    RunLast(IDLE, events, Accept(0));
    events := events + [Accept(0)];
  }

  lemma OneSessionOpen() returns (events: seq<Event>)
    ensures var s := Run(IDLE, events);
            && s.handlers == [Handler(0, 1, true, InSession)] && s.epoch == 1 && s.runtime.isRunning
            && s.registry == Registry(2, 1, 1, false) && |s.listeners| == 1
  {
    events := OneAccepted();
    RunLast(IDLE, events, HandlerIncrements(0));
    events := events + [HandlerIncrements(0)];
    RunLast(IDLE, events, HandlerTakesId(0));
    events := events + [HandlerTakesId(0)];
    RunLast(IDLE, events, HandlerOpensSession(0));
    events := events + [HandlerOpensSession(0)];
  }

  /** A stop and a start while that session's handler is unfinished. */
  lemma RestartUnderHandler() returns (events: seq<Event>)
    ensures var s := Run(IDLE, events);
            && s.handlers == [Handler(0, 1, true, InSession)] && s.epoch == 3 && s.runtime.isRunning
            && s.registry == Registry(2, 1, 1, false) && |s.listeners| == 2
            && s.listeners[1].phase == Accepting && s.runtime.activeConnections == 0
  {
    events := OneSessionOpen();
    RunLast(IDLE, events, Stop);
    events := events + [Stop];
    RunLast(IDLE, events, START);
    events := events + [START];
  }

  /** The leftover handler's decrement hides the connection of the new generation. */
  lemma LeftoverHandlerLowersCount() returns (events: seq<Event>)
    ensures var s := Run(IDLE, events);
            s.runtime.isRunning && s.runtime.activeConnections == 0 && FreshHandlers(s) == 1
  {
    events := RestartUnderHandler();
    RunLast(IDLE, events, Accept(1));
    events := events + [Accept(1)];
    RunLast(IDLE, events, HandlerIncrements(1));
    events := events + [HandlerIncrements(1)];
    RunLast(IDLE, events, HandlerClosesSession(0));
    events := events + [HandlerClosesSession(0)];
    RunLast(IDLE, events, HandlerDecrements(0));
    events := events + [HandlerDecrements(0)];
    var s, old1, new1 := Run(IDLE, events), Handler(0, 1, false, Done), Handler(1, 3, false, Counted);
    assert s.handlers == [old1, new1] && s.epoch == 3;
    assert [old1, new1][1..] == [new1] && [new1][1..] == [];
    assert Sum([new1], FreshWeight(3)) == 1;
  }
}
