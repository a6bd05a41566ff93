/** The proxy runtime behind its mutex and the registry of proxy sessions: what
    each critical section reads and writes. */
module ProxyManager {
  import opened Sequences
  import opened Decimals

  const U64_MAX: nat := 0xFFFF_FFFF_FFFF_FFFF

  datatype ProxyError = InvalidInput | ProxyAlreadyRunning | ProxyNotRunning | ProxyBindFailed | StateUnavailable

  datatype Result<+T> = Ok(value: T) | Err(error: ProxyError)

  datatype ProxyStatus = ProxyStatus(
    activeConnections: nat, isRunning: bool, listenUrl: Option<string>, targetUrl: Option<string>)

  /** A channel or task handle is named by the listener it belongs to. */
  datatype Runtime = Runtime(
    activeConnections: nat,
    connectionShutdown: Option<nat>,
    generation: nat,
    isRunning: bool,
    listenUrl: Option<string>,
    shutdown: Option<nat>,
    task: Option<nat>,
    targetUrl: Option<string>)

  const IDLE_RUNTIME := Runtime(0, None, 0, false, None, None, None, None)

  function Saturating(n: nat): nat { if n <= U64_MAX then n else U64_MAX }

  function Status(r: Runtime): ProxyStatus {
    ProxyStatus(r.activeConnections, r.isRunning, r.listenUrl, r.targetUrl)
  }

  function Started(r: Runtime, listener: nat, listenUrl: string, targetUrl: string): Runtime {
    Runtime(0, Some(listener), Saturating(r.generation + 1), true, Some(listenUrl), Some(listener), Some(listener),
            Some(targetUrl))
  }

  function Stopped(r: Runtime): Runtime {
    Runtime(0, None, r.generation, false, None, None, None, None)
  }

  function MarkedStopped(r: Runtime, generation: nat): Runtime {
    if r.generation != generation then r else Stopped(r)
  }

  function Incremented(r: Runtime): Runtime { r.(activeConnections := r.activeConnections + 1) }

  function Decremented(r: Runtime): Runtime {
    r.(activeConnections := if r.activeConnections == 0 then 0 else r.activeConnections - 1)
  }

  predicate AllSet(r: Runtime) {
    && r.isRunning && r.listenUrl.Some? && r.targetUrl.Some?
    && r.shutdown.Some? && r.connectionShutdown.Some? && r.task.Some?
  }

  predicate AllUnset(r: Runtime) {
    && !r.isRunning && r.listenUrl.None? && r.targetUrl.None?
    && r.shutdown.None? && r.connectionShutdown.None? && r.task.None?
  }

  class ProxyManagerObject {
    var activeConnections: nat
    var connectionShutdown: Option<nat>
    var generation: nat
    var isRunning: bool
    var listenUrl: Option<string>
    var shutdown: Option<nat>
    var task: Option<nat>
    var targetUrl: Option<string>

    function View(): Runtime
      reads this
    {
      Runtime(activeConnections, connectionShutdown, generation, isRunning, listenUrl, shutdown, task, targetUrl)
    }

    constructor ()
      ensures View() == IDLE_RUNTIME
    {
      activeConnections, connectionShutdown, generation, isRunning := 0, None, 0, false;
      listenUrl, shutdown, task, targetUrl := None, None, None, None;
    }

    /** `start`: the request is validated, then everything happens under the lock.
        `bound` is the address the listener got, if it got one. */
    method Start(requestedUrl: Option<string>, bound: Option<string>, listener: nat)
      returns (result: Result<ProxyStatus>)
      modifies this
      ensures requestedUrl.None? ==> result == Err(InvalidInput) && View() == old(View())
      ensures requestedUrl.Some? && old(isRunning) ==> result == Err(ProxyAlreadyRunning) && View() == old(View())
      ensures requestedUrl.Some? && !old(isRunning) && bound.None? ==>
                result == Err(ProxyBindFailed) && View() == old(View())
      ensures requestedUrl.Some? && !old(isRunning) && bound.Some? ==>
                && View() == Started(old(View()), listener, bound.value, requestedUrl.value)
                && listenUrl == bound && targetUrl == requestedUrl && activeConnections == 0 && isRunning
                && generation == (if old(generation) < U64_MAX then old(generation) + 1 else U64_MAX)
                && shutdown == connectionShutdown == task == Some(listener)
                && result == Ok(ProxyStatus(0, true, bound, requestedUrl))
    {
      if requestedUrl.None? {
        return Err(InvalidInput);
      }
      if isRunning {
        return Err(ProxyAlreadyRunning);
      }
      if bound.None? {
        return Err(ProxyBindFailed);
      }
      generation := Saturating(generation + 1);
      activeConnections, connectionShutdown, isRunning := 0, Some(listener), true;
      listenUrl, shutdown := Some(bound.value), Some(listener);
      task, targetUrl := Some(listener), Some(requestedUrl.value);
      return Ok(Status(View()));
    }

    /** The critical section of `stop`; the returned listener is signalled after the
        lock is released. */
    method Stop() returns (result: Result<ProxyStatus>, taken: Option<nat>)
      modifies this
      ensures !old(isRunning) ==> result == Err(ProxyNotRunning) && taken == None && View() == old(View())
      ensures old(isRunning) ==>
                && View() == Stopped(old(View())) && taken == old(shutdown)
                && AllUnset(View()) && activeConnections == 0 && generation == old(generation)
                && result == Ok(ProxyStatus(0, false, None, None))
    {
      if !isRunning {
        return Err(ProxyNotRunning), None;
      }
      taken := shutdown;
      shutdown, connectionShutdown, task := None, None, None;
      activeConnections, isRunning, listenUrl, targetUrl := 0, false, None, None;
      result := Ok(Status(View()));
    }

    method IncrementActiveConnections()
      modifies this`activeConnections
      ensures View() == Incremented(old(View()))
    {
      activeConnections := activeConnections + 1;
    }

    method DecrementActiveConnections()
      modifies this`activeConnections
      ensures View() == Decremented(old(View()))
    {
      activeConnections := if activeConnections == 0 then 0 else activeConnections - 1;
    }

    method MarkStopped(ended: nat)
      modifies this
      ensures View() == MarkedStopped(old(View()), ended)
    {
      if generation != ended {
        return;
      }
      activeConnections, connectionShutdown, isRunning := 0, None, false;
      listenUrl, shutdown, task, targetUrl := None, None, None, None;
    }
  }

  /** A `mark_stopped` is harmless exactly when it comes from another generation or
      finds nothing left to clear. */
  lemma MarkStoppedChangesNothing(r: Runtime, generation: nat)
    ensures MarkedStopped(r, generation) == r <==>
            r.generation != generation || (AllUnset(r) && r.activeConnections == 0)
  {
  }

  // -- The session registry ---------------------------------------------------------

  /** `poisoned` is the state of the counters' lock after a holder panicked. */
  datatype Registry = Registry(nextId: nat, activeSessions: nat, totalSessions: nat, poisoned: bool)

  const FRESH_REGISTRY := Registry(1, 0, 0, false)

  function TakeId(r: Registry): Registry { r.(nextId := (r.nextId + 1) % (U64_MAX + 1)) }

  function SessionOpened(r: Registry): Registry {
    if r.poisoned then r else r.(activeSessions := r.activeSessions + 1, totalSessions := r.totalSessions + 1)
  }

  function SessionClosed(r: Registry): Registry {
    if r.poisoned then r else r.(activeSessions := if r.activeSessions == 0 then 0 else r.activeSessions - 1)
  }

  function SessionName(id: nat): string { "proxy-session-" + Numeral(id) }

  lemma SessionNamesDiffer(i: nat, j: nat)
    requires i != j
    ensures SessionName(i) != SessionName(j)
  {
    if SessionName(i) == SessionName(j) {
      assert SessionName(i)[14..] == Numeral(i) && SessionName(j)[14..] == Numeral(j);
      NumeralInjective(i, j);
    }
  }

  class SessionRegistryObject {
    var nextId: nat
    var activeSessions: nat
    var totalSessions: nat
    var poisoned: bool

    function View(): Registry
      reads this
    {
      Registry(nextId, activeSessions, totalSessions, poisoned)
    }

    constructor ()
      ensures View() == FRESH_REGISTRY
    {
      nextId, activeSessions, totalSessions, poisoned := 1, 0, 0, false;
    }

    method FetchAddId() returns (id: nat)
      modifies this`nextId
      ensures id == old(nextId) && View() == TakeId(old(View()))
    {
      id := nextId;
      nextId := (nextId + 1) % (U64_MAX + 1);
    }

    method OpenProxySession(id: nat) returns (sessionId: Result<string>)
      modifies this`activeSessions, this`totalSessions
      ensures View() == SessionOpened(old(View()))
      ensures sessionId == if poisoned then Err(StateUnavailable) else Ok("proxy-session-" + Numeral(id))
    {
      if poisoned {
        return Err(StateUnavailable);
      }
      activeSessions, totalSessions := activeSessions + 1, totalSessions + 1;
      return Ok(SessionName(id));
    }

    method CloseProxySession() returns (closed: Result<()>)
      modifies this`activeSessions
      ensures View() == SessionClosed(old(View()))
      ensures closed == if poisoned then Err(StateUnavailable) else Ok(())
    {
      if poisoned {
        return Err(StateUnavailable);
      }
      activeSessions := if activeSessions == 0 then 0 else activeSessions - 1;
      return Ok(());
    }

    method Snapshot() returns (counters: Result<(nat, nat)>)
      ensures counters == if poisoned then Err(StateUnavailable) else Ok((activeSessions, totalSessions))
    {
      if poisoned {
        return Err(StateUnavailable);
      }
      return Ok((activeSessions, totalSessions));
    }
  }
}
