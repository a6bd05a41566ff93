/** What the proxy's calls and tasks answer, step by step and over whole runs. */
module ProxyAnswers {
  import opened Sequences
  import opened ProxyManager
  import opened ProxyProtocol

  // -- The manager ---------------------------------------------------------------------

  predicate StartSucceeds(s: System, e: Event) {
    e.Start? && e.requestedUrl.Some? && e.bound.Some? && !s.runtime.isRunning
  }

  function Latest(s: System, e: Event, found: Option<Event>): Option<Event> {
    if StartSucceeds(s, e) then Some(e) else found
  }

  /** The last `start` of the run that succeeded; `found` is the last one before it. */
  function LastStart(s: System, events: seq<Event>, found: Option<Event>): Option<Event>
    decreases |events|
  {
    if events == [] then found
    else LastStart(Step(s, events[0]), events[1..], Latest(s, events[0], found))
  }

  /** A running proxy forwards what the start asked for to where it got bound. */
  predicate UrlsAreOf(r: Runtime, start: Option<Event>) {
    r.isRunning ==>
      start.Some? && start.value.Start? && r.targetUrl == start.value.requestedUrl && r.listenUrl == start.value.bound
  }

  lemma StepKeepsUrls(s: System, e: Event, found: Option<Event>)
    requires UrlsAreOf(s.runtime, found)
    ensures UrlsAreOf(Step(s, e).runtime, Latest(s, e, found))
  {
    match e
    case Start(_, _) =>
    case Stop =>
    case RegistryPoisoned =>
    case _ => TasksKeepUrls(s, e);
  }

  lemma TasksKeepUrls(s: System, e: Event)
    requires !e.Start? && !e.Stop? && !e.RegistryPoisoned?
    ensures var r := Step(s, e).runtime;
            r.isRunning ==>
              s.runtime.isRunning && r.targetUrl == s.runtime.targetUrl && r.listenUrl == s.runtime.listenUrl
  {
    var t := AfterTaskStep(s, e);
    assert StepStop(s, e).runtime == s.runtime;
  }

  lemma {:induction false} RunKeepsUrls(s: System, events: seq<Event>, found: Option<Event>)
    requires UrlsAreOf(s.runtime, found)
    ensures UrlsAreOf(Run(s, events).runtime, LastStart(s, events, found))
    decreases |events|
  {
    if events != [] {
      StepKeepsUrls(s, events[0], found);
      RunKeepsUrls(Step(s, events[0]), events[1..], Latest(s, events[0], found));
    }
  }

  /** In every run: while the proxy is running, its target is the URL that the last
      successful `start` asked for and it listens on the address that one was bound to. */
  lemma UrlsAreOfTheLastStart(events: seq<Event>)
    ensures var r, start := Run(IDLE, events).runtime, LastStart(IDLE, events, None);
            r.isRunning ==> start == Some(Start(r.targetUrl, r.listenUrl))
  {
    RunKeepsUrls(IDLE, events, None);
    LastStartIsAStart(IDLE, events, None);
  }

  lemma {:induction false} LastStartIsAStart(s: System, events: seq<Event>, found: Option<Event>)
    requires found.Some? ==> found.value.Start?
    ensures LastStart(s, events, found).Some? ==> LastStart(s, events, found).value.Start?
    decreases |events|
  {
    if events != [] {
      LastStartIsAStart(Step(s, events[0]), events[1..], Latest(s, events[0], found));
    }
  }

  predicate SameTasks(s: System, t: System) {
    t.handlers == s.handlers && t.registry == s.registry && t.ids == s.ids
  }

  /** A start that succeeds spawns one listener, of the next generation. */
  lemma StartAnswers(s: System, e: Event)
    requires e.Start?
    ensures var t := Step(s, e);
            && SameTasks(s, t) && t.stops == s.stops
            && (!StartSucceeds(s, e) ==> t == s)
            && (StartSucceeds(s, e) ==>
                  && t.runtime.isRunning && t.runtime.activeConnections == 0
                  && t.runtime.targetUrl == e.requestedUrl && t.runtime.listenUrl == e.bound
                  && t.listeners == s.listeners + [Listener(t.runtime.generation, false, false, Accepting)]
                  && t.runtime.generation ==
                     (if s.runtime.generation < U64_MAX then s.runtime.generation + 1 else U64_MAX)
                  && t.runtime.shutdown == t.runtime.task == t.runtime.connectionShutdown == Some(|s.listeners|))
  {
  }

  /** A stop of a running proxy clears it and takes the newest listener's sender. */
  lemma StopAnswers(s: System)
    requires Invariant(s)
    ensures var t := Step(s, Stop);
            && SameTasks(s, t) && t.listeners == s.listeners
            && (!s.runtime.isRunning ==> t == s)
            && (s.runtime.isRunning ==>
                  && |s.listeners| > 0 && AllUnset(t.runtime) && t.runtime.activeConnections == 0
                  && t.runtime.generation == s.runtime.generation
                  && t.stops == s.stops + [StopCall(|s.listeners| - 1, false, false, false)])
  {
  }

  // -- Shutting down ----------------------------------------------------------------------

  /** Each stop call sends to the connections, then to the listener, then aborts it, and
      nothing else aborts a listener. */
  ghost predicate ShutdownInOrder(s: System) {
    && (forall c :: 0 <= c < |s.stops| ==>
          && s.stops[c].listener < |s.listeners|
          && (s.stops[c].oneshotSent ==> s.stops[c].broadcastSent && s.listeners[s.stops[c].listener].signalled)
          && (s.stops[c].abortSent ==> s.stops[c].oneshotSent && s.listeners[s.stops[c].listener].aborted))
    && (forall l :: 0 <= l < |s.listeners| && s.listeners[l].aborted ==> AbortSent(s, l))
    && (forall l :: 0 <= l < |s.listeners| && s.listeners[l].phase != Accepting ==>
          s.listeners[l].signalled || s.listeners[l].aborted)
    && (forall h :: 0 <= h < |s.handlers| ==> s.handlers[h].listener < |s.listeners|)
  }

  ghost predicate AbortSent(s: System, l: nat) {
    exists c :: 0 <= c < |s.stops| && s.stops[c].listener == l && s.stops[c].abortSent
  }

  lemma AbortStays(s: System, t: System)
    requires |s.stops| <= |t.stops|
    requires forall c :: 0 <= c < |s.stops| ==>
               t.stops[c].listener == s.stops[c].listener && (s.stops[c].abortSent ==> t.stops[c].abortSent)
    ensures forall l :: AbortSent(s, l) ==> AbortSent(t, l)
  {
    forall l | AbortSent(s, l) ensures AbortSent(t, l) {
      var c :| 0 <= c < |s.stops| && s.stops[c].listener == l && s.stops[c].abortSent;
      assert t.stops[c].listener == l;
    }
  }

  lemma CallsKeepOrder(s: System, e: Event)
    requires Invariant(s) && ShutdownInOrder(s) && (e.Start? || e.Stop? || e.RegistryPoisoned?)
    ensures ShutdownInOrder(Step(s, e))
  {
    AbortStays(s, Step(s, e));
  }

  lemma StopStepsKeepOrder(s: System, e: Event)
    requires ShutdownInOrder(s)
    ensures ShutdownInOrder(StepStop(s, e))
  {
    var t := StepStop(s, e);
    AbortStays(s, t);
    if e.StopAborts? && t != s {
      assert t.stops[e.call].abortSent;
    }
  }

  /** Listener by listener: signals stay, and only a signalled or aborted one stops accepting. */
  ghost predicate ListenersMoveOn(listeners: seq<Listener>, after: seq<Listener>) {
    && |after| == |listeners|
    && forall l :: 0 <= l < |listeners| ==>
         && after[l].aborted == listeners[l].aborted
         && (listeners[l].signalled ==> after[l].signalled)
         && (after[l].phase != Accepting && after[l].phase != listeners[l].phase ==>
               listeners[l].signalled || listeners[l].aborted)
  }

  lemma ListenerStepMovesOn(s: System, e: Event)
    requires SignalsAccountedFor(s)
    ensures var t := StepListener(s, e);
            && t.stops == s.stops && ListenersMoveOn(s.listeners, t.listeners)
            && (forall h :: 0 <= h < |t.handlers| ==>
                  if h < |s.handlers| then t.handlers[h] == s.handlers[h] else t.handlers[h].listener < |s.listeners|)
  {
  }

  lemma MovingOnKeepsOrder(s: System, t: System)
    requires ShutdownInOrder(s) && t.stops == s.stops && ListenersMoveOn(s.listeners, t.listeners)
    requires forall h :: 0 <= h < |t.handlers| ==>
               if h < |s.handlers| then t.handlers[h] == s.handlers[h] else t.handlers[h].listener < |s.listeners|
    ensures ShutdownInOrder(t)
  {
    AbortStays(s, t);
  }

  lemma ListenersKeepOrder(s: System, e: Event)
    requires Invariant(s) && ShutdownInOrder(s)
    ensures ShutdownInOrder(StepListener(s, e))
  {
    ListenerStepMovesOn(s, e);
    MovingOnKeepsOrder(s, StepListener(s, e));
  }

  lemma HandlersKeepOrder(s: System, e: Event)
    requires ShutdownInOrder(s)
    ensures ShutdownInOrder(StepHandler(s, e))
  {
    AbortStays(s, StepHandler(s, e));
  }

  lemma {:induction false} RunKeepsOrder(s: System, events: seq<Event>)
    requires Invariant(s) && ShutdownInOrder(s)
    ensures ShutdownInOrder(Run(s, events))
    decreases |events|
  {
    if events != [] {
      var e := events[0];
      if e.Start? || e.Stop? || e.RegistryPoisoned? {
        CallsKeepOrder(s, e);
      } else {
        StopStepsKeepOrder(s, e);
        StopStepKeeps(s, e);
        ListenersKeepOrder(StepStop(s, e), e);
        HandlersKeepOrder(AfterTaskStep(s, e), e);
      }
      StepKeepsInvariant(s, e);
      RunKeepsOrder(Step(s, e), events[1..]);
    }
  }

  /** In every run. */
  lemma ShutdownIsOrdered(events: seq<Event>)
    ensures ShutdownInOrder(Run(IDLE, events))
  {
    RunKeepsOrder(IDLE, events);
  }

  predicate SameOutside(s: System, t: System) {
    t.runtime == s.runtime && SameTasks(s, t) && |t.stops| == |s.stops| && |t.listeners| == |s.listeners|
  }

  /** A stop call's next step: what it marks as sent and what its listener then is. */
  lemma StopCallAnswers(s: System, c: nat)
    requires Invariant(s) && c < |s.stops|
    ensures var t, call := Step(s, StopSendsBroadcast(c)), s.stops[c];
            t == s.(stops := s.stops[c := call.(broadcastSent := true)])
    ensures var t, call := Step(s, StopSendsOneshot(c)), s.stops[c];
            && SameOutside(s, t)
            && (!call.broadcastSent || call.oneshotSent ==> t == s)
            && (call.broadcastSent && !call.oneshotSent ==>
                  && t.stops == s.stops[c := call.(oneshotSent := true)]
                  && t.listeners == s.listeners[call.listener := s.listeners[call.listener].(signalled := true)])
    ensures var t, call := Step(s, StopAborts(c)), s.stops[c];
            && SameOutside(s, t)
            && (!call.oneshotSent || call.abortSent ==> t == s)
            && (call.oneshotSent && !call.abortSent ==>
                  && t.stops == s.stops[c := call.(abortSent := true)]
                  && t.listeners == s.listeners[call.listener := s.listeners[call.listener].(aborted := true)])
  {
  }

  /** The three steps of a stop call in order reach its listener, from any state: it is
      signalled and aborted. */
  lemma StopReachesItsListener(s: System, c: nat)
    requires Invariant(s) && ShutdownInOrder(s) && c < |s.stops|
    ensures var t := Run(s, [StopSendsBroadcast(c), StopSendsOneshot(c), StopAborts(c)]);
            && c < |t.stops| && t.stops[c] == StopCall(s.stops[c].listener, true, true, true)
            && s.stops[c].listener < |t.listeners|
            && t.listeners[s.stops[c].listener].signalled && t.listeners[s.stops[c].listener].aborted
  {
    var a := Step(s, StopSendsBroadcast(c));
    var b := Step(a, StopSendsOneshot(c));
    StepKeepsInvariant(s, StopSendsBroadcast(c));
    StepKeepsInvariant(a, StopSendsOneshot(c));
    StopCallAnswers(s, c);
    StopCallAnswers(a, c);
    StopCallAnswers(b, c);
    RunLast(s, [], StopSendsBroadcast(c));
    RunLast(s, [StopSendsBroadcast(c)], StopSendsOneshot(c));
    RunLast(s, [StopSendsBroadcast(c), StopSendsOneshot(c)], StopAborts(c));
    assert [] + [StopSendsBroadcast(c)] == [StopSendsBroadcast(c)];
    assert [StopSendsBroadcast(c)] + [StopSendsOneshot(c)] == [StopSendsBroadcast(c), StopSendsOneshot(c)];
    assert [StopSendsBroadcast(c), StopSendsOneshot(c)] + [StopAborts(c)]
           == [StopSendsBroadcast(c), StopSendsOneshot(c), StopAborts(c)];
    SignalledStays(s, a, b, c);
  }

  lemma SignalledStays(s: System, a: System, b: System, c: nat)
    requires Invariant(s) && ShutdownInOrder(s) && c < |s.stops|
    requires a == s.(stops := s.stops[c := s.stops[c].(broadcastSent := true)]) && b == Step(a, StopSendsOneshot(c))
    requires SameOutside(a, b)
    requires s.stops[c].oneshotSent ==> b == a
    requires !s.stops[c].oneshotSent ==>
               && b.stops == a.stops[c := a.stops[c].(oneshotSent := true)]
               && b.listeners ==
                  a.listeners[s.stops[c].listener := a.listeners[s.stops[c].listener].(signalled := true)]
    ensures b.stops[c].broadcastSent && b.stops[c].oneshotSent && b.stops[c].listener == s.stops[c].listener
    ensures b.stops[c].abortSent == s.stops[c].abortSent
    ensures b.listeners[s.stops[c].listener].signalled
    ensures b.listeners[s.stops[c].listener].aborted == s.listeners[s.stops[c].listener].aborted
  {
  }

  // -- Handlers ---------------------------------------------------------------------------------

  /** The one handler a step is about. */
  predicate IsAbout(e: Event, h: nat) {
    match e
    case HandlerIncrements(i) => i == h
    case HandlerTakesId(i) => i == h
    case HandlerOpensSession(i) => i == h
    case HandlerClosesSession(i) => i == h
    case HandlerDecrements(i) => i == h
    case _ => false
  }

  /** The life of a handler: counted, numbered, in a session or refused by a poisoned
      registry, over, done. Every other event is without effect on it. */
  function NextPhase(s: System, e: Event, phase: HandlerPhase): HandlerPhase {
    if e.HandlerIncrements? && phase == Spawned then Counted
    else if e.HandlerTakesId? && phase == Counted then Numbered(s.registry.nextId)
    else if e.HandlerOpensSession? && phase.Numbered? then (if s.registry.poisoned then Refused else InSession)
    else if e.HandlerClosesSession? && phase == InSession then SessionOver
    else if e.HandlerDecrements? && (phase == Refused || phase == SessionOver) then Done
    else phase
  }

  lemma HandlerAnswers(s: System, e: Event, h: nat)
    requires h < |s.handlers|
    ensures var t := Step(s, e);
            && h < |t.handlers| && t.handlers[h].listener == s.handlers[h].listener
            && (!IsAbout(e, h) ==> t.handlers[h] == s.handlers[h])
            && (IsAbout(e, h) ==> t.handlers[h].phase == NextPhase(s, e, s.handlers[h].phase))
  {
    TasksIgnoreHandlers(s, e);
  }

  predicate TakesId(s: System, e: Event) {
    e.HandlerTakesId? && e.h < |s.handlers| && s.handlers[e.h].phase == Counted
  }

  /** Ids are handed out one after another, and wrap around after the last 64-bit one. */
  lemma IdAnswers(s: System, e: Event)
    requires IdsCountUp(s.ids, s.registry.nextId)
    ensures var nextId, t := s.registry.nextId, Step(s, e);
            && (t.registry.poisoned <==> s.registry.poisoned || e.RegistryPoisoned?)
            && (TakesId(s, e) ==> t.ids == s.ids + [nextId])
            && (TakesId(s, e) ==> t.registry.nextId == if nextId == U64_MAX then 0 else nextId + 1)
            && (!TakesId(s, e) ==> t.ids == s.ids && t.registry.nextId == nextId)
  {
  }

  // -- Counting all sessions ----------------------------------------------------------------------

  /** A handler past the opening of its session. */
  function OpenedWeight(h: Handler): nat {
    if h.phase == InSession || h.phase == SessionOver || h.phase == Done then 1 else 0
  }

  /** Until the lock is poisoned, `total_sessions` counts the handlers past that point,
      and no handler was refused. */
  ghost predicate TotalIsExact(s: System) {
    !s.registry.poisoned ==>
      && s.registry.totalSessions == Sum(s.handlers, OpenedWeight)
      && forall h :: h in s.handlers ==> h.phase != Refused
  }

  lemma HandlerStepKeepsTotal(s: System, h: nat, handler: Handler)
    requires h < |s.handlers| && TotalIsExact(s)
    ensures Sum(s.handlers[h := handler], OpenedWeight) + OpenedWeight(s.handlers[h])
            == Sum(s.handlers, OpenedWeight) + OpenedWeight(handler)
    ensures s.handlers[h] in s.handlers
    ensures forall x :: x in s.handlers[h := handler] ==> x == handler || x in s.handlers
  {
    SumUpdate(s.handlers, h, handler, OpenedWeight);
  }

  lemma HandlersKeepTotal(s: System, e: Event)
    requires TotalIsExact(s)
    ensures TotalIsExact(StepHandler(s, e))
  {
    var t := StepHandler(s, e);
    if t != s {
      var h := match e
               case HandlerIncrements(h) => h case HandlerTakesId(h) => h case HandlerOpensSession(h) => h
               case HandlerClosesSession(h) => h case HandlerDecrements(h) => h case _ => 0;
      HandlerStepKeepsTotal(s, h, t.handlers[h]);
    }
  }

  lemma TasksKeepTotal(s: System, e: Event)
    requires TotalIsExact(s)
    ensures TotalIsExact(AfterTaskStep(s, e))
  {
    if e.Accept? {
      SumAppend(s.handlers, Handler(e.l, 0, false, Spawned), OpenedWeight);
    }
  }

  lemma {:induction false} RunKeepsTotal(s: System, events: seq<Event>)
    requires TotalIsExact(s)
    ensures TotalIsExact(Run(s, events))
    decreases |events|
  {
    if events != [] {
      TasksKeepTotal(s, events[0]);
      HandlersKeepTotal(AfterTaskStep(s, events[0]), events[0]);
      RunKeepsTotal(Step(s, events[0]), events[1..]);
    }
  }

  lemma TotalSessionsExact(events: seq<Event>)
    ensures TotalIsExact(Run(IDLE, events))
  {
    RunKeepsTotal(IDLE, events);
  }

  // -- Listeners ----------------------------------------------------------------------------------

  predicate IsIn(s: System, l: nat, phase: ListenerPhase) { l < |s.listeners| && s.listeners[l].phase == phase }

  /** An accepting listener spawns a handler per connection, leaves its loop once it is
      signalled, and then clears the runtime if that is still of its own generation. */
  lemma ListenerAnswers(s: System, l: nat)
    ensures var t := Step(s, Accept(l));
            t == if IsIn(s, l, Accepting) then s.(handlers := s.handlers + [Handler(l, 0, false, Spawned)]) else s
    ensures var t := Step(s, ListenerLeaves(l));
            t == if IsIn(s, l, Accepting) && s.listeners[l].signalled
                 then s.(listeners := s.listeners[l := s.listeners[l].(phase := Leaving)]) else s
    ensures var t := Step(s, ListenerMarksStopped(l));
            && (!IsIn(s, l, Leaving) ==> t == s)
            && (IsIn(s, l, Leaving) ==> IsIn(t, l, Finished) && SameTasks(s, t) && t.stops == s.stops)
            && (IsIn(s, l, Leaving) && s.runtime.generation == s.listeners[l].generation ==>
                  AllUnset(t.runtime) && t.runtime.activeConnections == 0
                  && t.runtime.generation == s.runtime.generation)
            && (IsIn(s, l, Leaving) && s.runtime.generation != s.listeners[l].generation ==> t.runtime == s.runtime)
    ensures Step(s, AcceptFails(l)) == s
  {
  }
}
