/** What each step of the connection store answers, from every state a run can reach. */
module ConnectionAnswers {
  import opened Sequences
  import opened Models
  import opened ConnectionStore
  import opened ConnectionSafety

  ghost predicate Reached(s: State) {
    exists refusedCodes, events :: s == Run(Initial(refusedCodes), events)
  }

  lemma ReachedKeeps(s: State)
    requires Reached(s)
    ensures Invariant(s)
  {
    var refusedCodes, events :| s == Run(Initial(refusedCodes), events);
    InitialInvariant(refusedCodes);
    RunKeepsInvariant(Initial(refusedCodes), events);
  }

  // -- Letting go of the socket ----------------------------------------------------------

  /** The store gave up its socket: handlers off, and closed with `code` if it was live,
      unless it was open and the browser refuses the code. No other socket changed. */
  ghost predicate LetGo(s: State, t: State, code: int) {
    && t.socket == None && |t.sockets| == |s.sockets|
    && (forall j :: 0 <= j < |s.sockets| && s.socket != Some(j) ==> t.sockets[j] == s.sockets[j])
    && (forall j :: 0 <= j < |s.sockets| && s.socket == Some(j) ==>
          && !t.sockets[j].attached
          && t.sockets[j].session == s.sockets[j].session && t.sockets[j].connection == s.sockets[j].connection
          && t.sockets[j].readyState ==
             match s.sockets[j].readyState
             case SocketConnecting => SocketClosing
             case SocketOpen => if code in s.refusedCodes then SocketOpen else SocketClosing
             case SocketClosing => SocketClosing
             case SocketClosed => SocketClosed)
  }

  /** The connection is over and the store shows `status`. */
  predicate Over(t: State, status: ConnectionStatus) {
    t.status == status && !t.isConnected && t.activeSessionId == None && t.activeConnectionId == None
  }

  lemma CleanupLetsGo(s: State, t: State, code: int)
    requires Invariant(s) && t.socket == None && t.sockets == CleanupCurrent(s, code).sockets
    ensures LetGo(s, t, code)
  {
  }

  /** Of the sessions' journal, and of nothing else that other steps go by. */
  predicate Recorded(s: State, t: State, calls: seq<Call>) {
    && t.journal == s.journal + calls
    && t.sessionCount == s.sessionCount && t.refusedCodes == s.refusedCodes
    && t.normalizing == s.normalizing && t.selectedConnectionId == s.selectedConnectionId
  }

  predicate SameAttempts(s: State, t: State) {
    && t.lastReconnectAttemptAt == s.lastReconnectAttemptAt && t.reconnectAttempts == s.reconnectAttempts
    && t.delayedReconnects == s.delayedReconnects
  }

  // -- Socket events ------------------------------------------------------------------------

  /** An event of a socket that is not the store's changes nothing at all. */
  lemma StaleEventsChangeNothing(s: State, k: nat, code: int)
    requires Reached(s) && s.socket != Some(k)
    ensures Step(s, SocketOpens(k)) == s && Step(s, SocketReceives(k)) == s
    ensures Step(s, SocketCloses(k, code)) == s && Step(s, SocketErrs(k)) == s
  {
    ReachedKeeps(s);
  }

  /** The close code decides: 1006 fails the session, and every other code ends it
      cleanly, unless the store already shows a failure. */
  lemma CloseAnswers(s: State, k: nat, code: int)
    requires Reached(s) && s.socket == Some(k) && HasSocket(s, k) && s.sockets[k].readyState == SocketClosed
    ensures var t := Step(s, SocketCloses(k, code));
            && s.activeSessionId.Some? && LetGo(s, t, code) && SameAttempts(s, t)
            && (code == 1006 || s.status == Failed ==>
                  Over(t, Failed) && Recorded(s, t, [SessionMarked(s.activeSessionId.value, Error)]))
            && (code != 1006 && s.status != Failed ==>
                  Over(t, Disconnected) && Recorded(s, t, [SessionMarked(s.activeSessionId.value, Closed)]))
  {
    ReachedKeeps(s);
  }

  lemma OpenAnswers(s: State, k: nat)
    requires Reached(s) && s.socket == Some(k)
    ensures var t := Step(s, SocketOpens(k));
            && HasSocket(s, k) && s.activeSessionId.Some?
            && t.isConnected && t.status == ConnectionStatus.Connected && t.reconnectAttempts == 0
            && t.activeConnectionId == Some(s.sockets[k].connection) == t.selectedConnectionId
            && t.activeSessionId == s.activeSessionId && t.socket == Some(k) && t.sockets == s.sockets
            && t.journal == s.journal + [SessionMarked(s.activeSessionId.value, SessionStatus.Connected)]
            && t.lastReconnectAttemptAt == s.lastReconnectAttemptAt && t.delayedReconnects == s.delayedReconnects
            && t.normalizing == s.normalizing && t.sessionCount == s.sessionCount
  {
    ReachedKeeps(s);
  }

  lemma ErrorAnswers(s: State, k: nat)
    requires Reached(s) && s.socket == Some(k)
    ensures var t := Step(s, SocketErrs(k));
            && s.activeSessionId.Some? && LetGo(s, t, 1011) && Over(t, Failed) && SameAttempts(s, t)
            && Recorded(s, t, [SessionMarked(s.activeSessionId.value, Error)])
  {
    ReachedKeeps(s);
  }

  /** A message waits to be normalised, and is recorded as inbound for the active session
      if its socket is still the store's when that is done. */
  lemma ReceiveAnswers(s: State, k: nat)
    requires Reached(s) && s.socket == Some(k)
    ensures Step(s, SocketReceives(k)) == s.(normalizing := s.normalizing + [k])
  {
    ReachedKeeps(s);
  }

  lemma NormalizeAnswers(s: State, index: nat, succeeds: bool)
    requires Reached(s) && index < |s.normalizing|
    ensures var t := Step(s, MessageNormalizes(index, succeeds));
            var rest := s.(normalizing := s.normalizing[..index] + s.normalizing[index + 1..]);
            if succeeds && s.socket == Some(s.normalizing[index])
            then s.activeSessionId.Some?
                 && t == rest.(journal := s.journal + [PacketRecorded(s.activeSessionId.value, Inbound)])
            else t == rest
  {
    ReachedKeeps(s);
  }

  // -- User actions ---------------------------------------------------------------------------

  predicate IsOpen(s: State) {
    s.socket.Some? && s.socket.value < |s.sockets| && s.sockets[s.socket.value].readyState == SocketOpen
  }

  /** A message goes out, and is recorded as outbound, exactly when it is not blank, the
      socket is open and the connection is known. A throwing `send` fails the session. */
  lemma SendAnswers(s: State, blank: bool, throws: bool)
    requires Reached(s)
    ensures var t := Step(s, SendMessage(blank, throws));
            if blank || !IsOpen(s) || s.activeConnectionId == None || s.activeConnectionId == Some("") then t == s
            else
              && s.activeSessionId.Some?
              && (!throws ==> t == s.(journal := s.journal + [PacketRecorded(s.activeSessionId.value, Outbound)]))
              && (throws ==> LetGo(s, t, 1011) && Over(t, Failed) && SameAttempts(s, t)
                             && Recorded(s, t, [SessionMarked(s.activeSessionId.value, Error)]))
  {
    ReachedKeeps(s);
  }

  /** How the active session ends when the user ends the connection. */
  function EndOfActive(s: State): seq<Call> {
    if s.activeSessionId.Some? then [SessionMarked(s.activeSessionId.value, Closed)] else []
  }

  /** The socket is given up, the active session closed and the connection over. */
  ghost predicate EndsCleanly(s: State, t: State, code: int, status: ConnectionStatus) {
    LetGo(s, t, code) && Over(t, status) && Recorded(s, t, EndOfActive(s))
  }

  lemma DisconnectEnds(s: State)
    requires Invariant(s)
    ensures EndsCleanly(s, Step(s, Disconnect), 1000, Disconnected) && SameAttempts(s, Step(s, Disconnect))
  {
    CleanupLetsGo(s, Step(s, Disconnect), 1000);
  }

  lemma DisconnectAnswers(s: State)
    requires Reached(s)
    ensures EndsCleanly(s, Step(s, Disconnect), 1000, Disconnected) && SameAttempts(s, Step(s, Disconnect))
  {
    ReachedKeeps(s);
    DisconnectEnds(s);
  }

  lemma DisposeAnswers(s: State)
    requires Reached(s)
    ensures EndsCleanly(s, Step(s, Dispose), 1001, if s.status == Idle then Idle else Disconnected)
    ensures SameAttempts(s, Step(s, Dispose))
  {
    ReachedKeeps(s);
    CleanupLetsGo(s, Step(s, Dispose), 1001);
  }

  /** `connect` is refused in demo mode and while a socket is connecting or open. */
  predicate Refuses(s: State, outcome: Outcome) {
    outcome.demoActive
    || (s.socket.Some? && s.socket.value < |s.sockets| && IsLive(s.sockets[s.socket.value]))
  }

  /** The sockets, with no handlers on the store's own. */
  function WithoutHandlers(s: State): seq<Socket> {
    if s.socket.Some? && s.socket.value < |s.sockets|
    then s.sockets[s.socket.value := s.sockets[s.socket.value].(attached := false)]
    else s.sockets
  }

  predicate SameSessions(s: State, t: State) {
    && t.journal == s.journal && t.sessionCount == s.sessionCount
    && t.activeSessionId == s.activeSessionId && t.activeConnectionId == s.activeConnectionId
  }

  /** One new socket for one new session, or a failure without either. */
  predicate Connects(s: State, t: State, outcome: Outcome) {
    if outcome.endpointOk && outcome.constructorOk then
      && t.sockets == WithoutHandlers(s) + [Socket(SocketConnecting, true, s.sessionCount, outcome.connection)]
      && t.socket == Some(|s.sockets|) && t.status == ConnectionStatus.Connecting && !t.isConnected
      && t.activeSessionId == Some(s.sessionCount) && t.sessionCount == s.sessionCount + 1
      && t.activeConnectionId == Some(outcome.connection) == t.selectedConnectionId
      && t.journal == s.journal + [SessionStarted(s.sessionCount)]
    else
      && t.sockets == WithoutHandlers(s) && t.socket == None && t.status == Failed && !t.isConnected
      && SameSessions(s, t)
      && t.selectedConnectionId ==
         if outcome.knownTarget.Some? then outcome.knownTarget else s.selectedConnectionId
  }

  lemma ConnectOpens(s: State, outcome: Outcome)
    requires Invariant(s)
    ensures var t := Step(s, Connect(outcome));
            && SameAttempts(s, t) && t.normalizing == s.normalizing
            && if Refuses(s, outcome) then t == s else Connects(s, t, outcome)
  {
  }

  lemma ConnectAnswers(s: State, outcome: Outcome)
    requires Reached(s)
    ensures var t := Step(s, Connect(outcome));
            && SameAttempts(s, t) && t.normalizing == s.normalizing
            && if Refuses(s, outcome) then t == s else Connects(s, t, outcome)
  {
    ReachedKeeps(s);
    ConnectOpens(s, outcome);
  }

  /** The connection a reconnect is for: the one asked for, else the selected one, else
      the active one. */
  predicate IsTarget(s: State, requested: Option<EntityId>, target: Option<EntityId>) {
    && (requested.Some? ==> target == requested)
    && (requested.None? && s.selectedConnectionId.Some? ==> target == s.selectedConnectionId)
    && (requested.None? && s.selectedConnectionId.None? ==> target == s.activeConnectionId)
  }

  /** Nothing to connect to, a connection under way, or less than 900 ms since the last attempt. */
  predicate TurnsAway(s: State, now: real, target: Option<EntityId>) {
    || target == None || target == Some("") || s.status == ConnectionStatus.Connecting
    || (s.lastReconnectAttemptAt.Some? && s.lastReconnectAttemptAt.value != 0.0
        && now - s.lastReconnectAttemptAt.value < 900.0)
  }

  lemma TurnsAwayIff(s: State, requested: Option<EntityId>, now: real)
    ensures IsTarget(s, requested, ReconnectTarget(s, requested))
    ensures ReconnectRefused(s, requested, now) <==> TurnsAway(s, now, ReconnectTarget(s, requested))
  {
  }

  predicate CountsAttempt(s: State, t: State, now: real) {
    t.lastReconnectAttemptAt == Some(now) && t.reconnectAttempts == s.reconnectAttempts + 1
  }

  /** The reconnect finds a connection to its target. */
  predicate EndsFirst(s: State, target: Option<EntityId>) { s.activeConnectionId == target && s.socket.Some? }

  /** What `connect` leaves, whether it goes ahead or not. */
  predicate ConnectsUnlessRefused(s: State, t: State, outcome: Outcome) {
    && t.normalizing == s.normalizing
    && if Refuses(s, outcome) then t.sockets == s.sockets && t.socket == s.socket && SameSessions(s, t)
       else Connects(s, t, outcome)
  }

  lemma EndsForReconnect(s: State, now: real, target: EntityId)
    requires Invariant(s)
    ensures var ended := Step(NoteReconnect(s, now), Disconnect);
            var t := ended.(delayedReconnects := ended.delayedReconnects + [target]);
            && EndsCleanly(s, t, 1000, Disconnected) && CountsAttempt(s, t, now)
            && t.delayedReconnects == s.delayedReconnects + [target]
  {
    NoteKeeps(s, now);
    DisconnectEnds(NoteReconnect(s, now));
  }

  lemma ConnectsForReconnect(s: State, now: real, outcome: Outcome)
    requires Invariant(s)
    ensures var t := Step(NoteReconnect(s, now), Connect(outcome));
            && ConnectsUnlessRefused(s, t, outcome) && CountsAttempt(s, t, now)
            && t.delayedReconnects == s.delayedReconnects
  {
    NoteKeeps(s, now);
    ConnectOpens(NoteReconnect(s, now), outcome);
  }

  /** A reconnect that is not turned away is counted. It ends a connection to its target
      and waits, or connects at once. */
  lemma ReconnectAnswers(
    s: State, requested: Option<EntityId>, now: real, outcome: Outcome, target: Option<EntityId>)
    requires Reached(s) && IsTarget(s, requested, target)
    ensures var t := Step(s, Reconnect(requested, now, outcome));
            && (TurnsAway(s, now, target) ==> t == s)
            && (!TurnsAway(s, now, target) ==> CountsAttempt(s, t, now))
            && (!TurnsAway(s, now, target) && EndsFirst(s, target) ==>
                  EndsCleanly(s, t, 1000, Disconnected) && t.delayedReconnects == s.delayedReconnects + [target.value])
            && (!TurnsAway(s, now, target) && !EndsFirst(s, target) ==>
                  ConnectsUnlessRefused(s, t, outcome) && t.delayedReconnects == s.delayedReconnects)
  {
    ReachedKeeps(s);
    TurnsAwayIff(s, requested, now);
    assert target == ReconnectTarget(s, requested);
    if !TurnsAway(s, now, target) {
      CountedReconnect(s, requested, now, outcome);
      EndsForReconnect(s, now, target.value);
      ConnectsForReconnect(s, now, outcome);
    }
  }

  lemma CountedReconnect(s: State, requested: Option<EntityId>, now: real, outcome: Outcome)
    requires !ReconnectRefused(s, requested, now)
    ensures var noted, target := NoteReconnect(s, now), ReconnectTarget(s, requested);
            Step(s, Reconnect(requested, now, outcome)) ==
            if EndsFirst(s, target)
            then Step(noted, Disconnect).(delayedReconnects := noted.delayedReconnects + [target.value])
            else Step(noted, Connect(outcome))
  {
    KeepsAttempts(NoteReconnect(s, now), outcome);
  }

  /** A reconnect that waited is a `connect` on whatever state it then finds. */
  lemma ResumeAnswers(s: State, index: nat, outcome: Outcome)
    requires Reached(s) && index < |s.delayedReconnects|
    ensures var t := Step(s, ReconnectResumes(index, outcome));
            && t.delayedReconnects == s.delayedReconnects[..index] + s.delayedReconnects[index + 1..]
            && ConnectsUnlessRefused(s, t, outcome)
            && t.lastReconnectAttemptAt == s.lastReconnectAttemptAt && t.reconnectAttempts == s.reconnectAttempts
  {
    ReachedKeeps(s);
    var taken := TakeDelayed(s, index);
    assert Invariant(taken);
    ConnectOpens(taken, outcome);
  }

  lemma KeepsAttempts(s: State, outcome: Outcome)
    ensures SameAttempts(s, Step(s, Connect(outcome))) && SameAttempts(s, Step(s, Disconnect))
  {
  }

  lemma AttemptIsNoted(s: State, requested: Option<EntityId>, now: real, outcome: Outcome)
    requires Step(s, Reconnect(requested, now, outcome)) != s
    ensures Step(s, Reconnect(requested, now, outcome)).lastReconnectAttemptAt == Some(now)
  {
    CountedReconnect(s, requested, now, outcome);
    KeepsAttempts(NoteReconnect(s, now), outcome);
  }

  /** A second attempt within the cooldown of one that counted changes nothing. */
  lemma CooldownHolds(
    s: State, first: Option<EntityId>, earlier: real, outcome: Outcome,
    second: Option<EntityId>, now: real, again: Outcome)
    requires earlier != 0.0 && now - earlier < 900.0
    requires Step(s, Reconnect(first, earlier, outcome)) != s
    ensures var t := Step(s, Reconnect(first, earlier, outcome)); Step(t, Reconnect(second, now, again)) == t
  {
    var t := Step(s, Reconnect(first, earlier, outcome));
    AttemptIsNoted(s, first, earlier, outcome);
    TurnsAwayIff(t, second, now);
  }

  /** Saving, removing and selecting connections touch no socket and no session. */
  lemma BookkeepingAnswers(s: State, accepted: bool, id: EntityId, selected: Option<EntityId>)
    ensures Step(s, SelectConnection(selected)) == s.(selectedConnectionId := selected)
    ensures !accepted ==> Step(s, SaveConnection(accepted, id)) == s.(status := Failed)
    ensures accepted && s.activeConnectionId.Some? && s.activeConnectionId != Some("") ==>
              Step(s, SaveConnection(accepted, id)) == s.(selectedConnectionId := Some(id))
    ensures accepted && (s.activeConnectionId == None || s.activeConnectionId == Some("")) ==>
              Step(s, SaveConnection(accepted, id)) == s.(selectedConnectionId := Some(id), status := Idle)
    ensures var t := Step(s, RemoveConnection(id));
            && t == s.(activeConnectionId := t.activeConnectionId, selectedConnectionId := t.selectedConnectionId)
            && t.activeConnectionId != Some(id) && t.selectedConnectionId != Some(id)
            && (s.activeConnectionId != Some(id) ==> t.activeConnectionId == s.activeConnectionId)
            && (s.selectedConnectionId != Some(id) ==> t.selectedConnectionId == s.selectedConnectionId)
  {
  }

  // -- Over whole runs -----------------------------------------------------------------------------

  /** How many sessions the journal starts. */
  function Starts(journal: seq<Call>): nat {
    if journal == [] then 0
    else Starts(journal[..|journal| - 1]) + if journal[|journal| - 1].SessionStarted? then 1 else 0
  }

  /** Sessions are numbered as they start, and other calls name started ones. */
  predicate StartsFirst(journal: seq<Call>) {
    journal != [] ==>
      var before, last := journal[..|journal| - 1], journal[|journal| - 1];
      && StartsFirst(before)
      && (if last.SessionStarted? then last.session == Starts(before) else last.session < Starts(before))
  }

  /** Connected only after the active session was marked so. */
  ghost predicate Earned(s: State) {
    && (s.status == ConnectionStatus.Connected ==> s.isConnected)
    && (s.isConnected ==> s.activeSessionId.Some?
                          && SessionMarked(s.activeSessionId.value, SessionStatus.Connected) in s.journal)
    && StartsFirst(s.journal) && Starts(s.journal) == s.sessionCount
  }

  lemma StartsAppend(journal: seq<Call>, call: Call)
    ensures Starts(journal + [call]) == Starts(journal) + if call.SessionStarted? then 1 else 0
    ensures StartsFirst(journal + [call]) <==>
            StartsFirst(journal)
            && (if call.SessionStarted? then call.session == Starts(journal) else call.session < Starts(journal))
    ensures forall c :: c in journal ==> c in journal + [call]
  {
    assert (journal + [call])[..|journal|] == journal;
  }

  /** What a step adds to the journal. */
  ghost predicate Adds(s: State, t: State, call: Call) { t.journal == s.journal + [call] }

  lemma EarnedAfterCall(s: State, t: State, call: Call)
    requires Earned(s) && Adds(s, t, call)
    requires call.SessionStarted? ==> call.session == s.sessionCount && t.sessionCount == s.sessionCount + 1
    requires !call.SessionStarted? ==> call.session < s.sessionCount && t.sessionCount == s.sessionCount
    requires t.status == ConnectionStatus.Connected ==> t.isConnected
    requires t.isConnected ==>
               && t.activeSessionId.Some?
               && (call == SessionMarked(t.activeSessionId.value, SessionStatus.Connected)
                   || (s.isConnected && t.activeSessionId == s.activeSessionId))
    ensures Earned(t)
  {
    StartsAppend(s.journal, call);
  }

  lemma ConnectEarned(s: State, outcome: Outcome)
    requires Invariant(s) && Earned(s)
    ensures Earned(AfterConnect(s, outcome))
  {
    if ConnectSucceeds(s, outcome) {
      EarnedAfterCall(s, AfterConnect(s, outcome), SessionStarted(s.sessionCount));
    }
  }

  lemma EndedEarned(s: State, code: int, status: ConnectionStatus)
    requires Invariant(s) && Earned(s) && status != ConnectionStatus.Connected
    ensures Earned(Released(MarkActive(CleanupCurrent(s, code), Closed), status))
  {
    if s.activeSessionId.Some? {
      EarnedAfterCall(s, Released(MarkActive(CleanupCurrent(s, code), Closed), status),
                      SessionMarked(s.activeSessionId.value, Closed));
    }
  }

  lemma ReconnectEarned(s: State, requested: Option<EntityId>, now: real, outcome: Outcome)
    requires Invariant(s) && Earned(s)
    ensures Earned(AfterReconnect(s, requested, now, outcome))
  {
    var noted := NoteReconnect(s, now);
    NoteKeeps(s, now);
    ConnectEarned(noted, outcome);
    EndedEarned(noted, 1000, Disconnected);
  }

  lemma SendEarned(s: State, blank: bool, throws: bool)
    requires Invariant(s) && Earned(s)
    ensures Earned(AfterSend(s, blank, throws))
  {
    if CanSend(s, blank) {
      EarnedAfterCall(s, AfterSend(s, blank, throws),
                      if throws then SessionMarked(s.activeSessionId.value, Error)
                      else PacketRecorded(s.activeSessionId.value, Outbound));
    }
  }

  lemma OpensEarned(s: State, k: nat)
    requires Invariant(s) && Earned(s)
    ensures Earned(AfterOpen(s, k))
  {
    if HasSocket(s, k) && s.sockets[k].attached {
      EarnedAfterCall(s, AfterOpen(s, k), SessionMarked(s.sockets[k].session, SessionStatus.Connected));
    }
  }

  lemma ClosesEarned(s: State, k: nat, code: int)
    requires Invariant(s) && Earned(s)
    ensures Earned(AfterClose(s, k, code))
  {
    var t := AfterClose(s, k, code);
    if t.journal != s.journal {
      EarnedAfterCall(s, t, t.journal[|s.journal|]);
    }
  }

  lemma ErrsEarned(s: State, k: nat)
    requires Invariant(s) && Earned(s)
    ensures Earned(AfterError(s, k))
  {
    if HasSocket(s, k) && s.sockets[k].attached {
      EarnedAfterCall(s, AfterError(s, k), SessionMarked(s.sockets[k].session, Error));
    }
  }

  lemma NormalizesEarned(s: State, index: nat, succeeds: bool)
    requires Invariant(s) && Earned(s)
    ensures Earned(AfterNormalize(s, index, succeeds))
  {
    var t := AfterNormalize(s, index, succeeds);
    if t.journal != s.journal {
      EarnedAfterCall(s, t, PacketRecorded(s.sockets[s.normalizing[index]].session, Inbound));
    }
  }

  lemma StepEarned(s: State, e: Event)
    requires Invariant(s) && Earned(s)
    ensures Earned(Step(s, e))
  {
    match e
    case Connect(outcome) => ConnectEarned(s, outcome);
    case Disconnect => EndedEarned(s, 1000, Disconnected);
    case Dispose => EndedEarned(s, 1001, if s.status == Idle then Idle else Disconnected);
    case Reconnect(requested, now, outcome) => ReconnectEarned(s, requested, now, outcome);
    case ReconnectResumes(index, outcome) =>
      if index < |s.delayedReconnects| {
        assert Invariant(TakeDelayed(s, index));
        ConnectEarned(TakeDelayed(s, index), outcome);
      }
    case SendMessage(blank, throws) => SendEarned(s, blank, throws);
    case SaveConnection(_, _) =>
    case RemoveConnection(_) =>
    case SelectConnection(_) =>
    case SocketAdvances(_, _) =>
    case SocketReceives(_) =>
    case SocketOpens(k) => OpensEarned(s, k);
    case SocketCloses(k, code) => ClosesEarned(s, k, code);
    case SocketErrs(k) => ErrsEarned(s, k);
    case MessageNormalizes(index, succeeds) => NormalizesEarned(s, index, succeeds);
  }

  lemma {:induction false} RunEarned(s: State, events: seq<Event>)
    requires Invariant(s) && Earned(s)
    ensures Earned(Run(s, events))
    decreases |events|
  {
    if events != [] {
      StepKeepsInvariant(s, events[0]);
      StepEarned(s, events[0]);
      RunEarned(Step(s, events[0]), events[1..]);
    }
  }

  lemma {:induction false} StartsBefore(journal: seq<Call>, j: nat) returns (i: nat)
    requires StartsFirst(journal) && j < |journal|
    ensures i <= j && journal[i] == SessionStarted(journal[j].session)
    ensures i == j <==> journal[j].SessionStarted?
    decreases |journal|, j
  {
    var before, last := journal[..|journal| - 1], journal[|journal| - 1];
    if j < |before| {
      i := StartsBefore(before, j);
    } else if last.SessionStarted? {
      i := j;
    } else {
      i := StartAt(before, last.session);
    }
  }

  lemma {:induction false} StartAt(journal: seq<Call>, session: nat) returns (i: nat)
    requires StartsFirst(journal) && session < Starts(journal)
    ensures i < |journal| && journal[i] == SessionStarted(session)
    decreases |journal|
  {
    var before := journal[..|journal| - 1];
    if session < Starts(before) {
      i := StartAt(before, session);
    } else {
      i := |journal| - 1;
    }
  }

  lemma {:induction false} StartedOnce(journal: seq<Call>, i: nat, j: nat)
    requires StartsFirst(journal) && i < j < |journal| && journal[j].SessionStarted?
    ensures journal[i].session < journal[j].session
    decreases |journal|
  {
    var before := journal[..|journal| - 1];
    if j < |before| {
      StartedOnce(before, i, j);
    } else {
      BelowStarts(before, i);
    }
  }

  lemma {:induction false} BelowStarts(journal: seq<Call>, i: nat)
    requires StartsFirst(journal) && i < |journal|
    ensures journal[i].session < Starts(journal)
    decreases |journal|
  {
    if i < |journal| - 1 {
      BelowStarts(journal[..|journal| - 1], i);
    }
  }

  /** The life of every session in every run: it is started once, before anything else
      names it, and the store shows it as connected only after marking it so. */
  lemma SessionsStartFirst(refusedCodes: set<int>, events: seq<Event>, j: nat) returns (i: nat)
    requires j < |Run(Initial(refusedCodes), events).journal|
    ensures var s := Run(Initial(refusedCodes), events);
            && i <= j && s.journal[i] == SessionStarted(s.journal[j].session)
            && (i == j <==> s.journal[j].SessionStarted?)
            && (forall m :: 0 <= m < i ==> s.journal[m].session != s.journal[i].session)
  {
    var s := Run(Initial(refusedCodes), events);
    InitialInvariant(refusedCodes);
    RunEarned(Initial(refusedCodes), events);
    i := StartsBefore(s.journal, j);
    forall m | 0 <= m < i ensures s.journal[m].session != s.journal[i].session {
      StartedOnce(s.journal, m, i);
    }
  }

  lemma ConnectedIsEarned(refusedCodes: set<int>, events: seq<Event>)
    ensures var s := Run(Initial(refusedCodes), events);
            && (s.status == ConnectionStatus.Connected ==> s.isConnected)
            && (s.isConnected ==> s.activeSessionId.Some?
                                  && SessionMarked(s.activeSessionId.value, SessionStatus.Connected) in s.journal)
  {
    InitialInvariant(refusedCodes);
    RunEarned(Initial(refusedCodes), events);
  }
}
