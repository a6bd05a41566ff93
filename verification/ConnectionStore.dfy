/** The WebSocket connection store and the browser sockets it drives, one atomic
    step per user action, socket event or resumed continuation. */
module ConnectionStore {
  import opened Sequences
  import opened Models

  datatype ConnectionStatus = Idle | Connecting | Connected | Disconnected | Failed

  datatype ReadyState = SocketConnecting | SocketOpen | SocketClosing | SocketClosed

  /** A browser socket. `attached` says whether the store's four handlers are on it;
      `session` and `connection` are what those handlers captured. */
  datatype Socket = Socket(readyState: ReadyState, attached: bool, session: nat, connection: EntityId)

  /** A call the store makes on the session and packet stores. */
  datatype Call =
    | SessionStarted(session: nat)
    | SessionMarked(session: nat, mark: SessionStatus)
    | PacketRecorded(session: nat, direction: Direction)

  /** Fields of the store, then the browser and the continuations in flight.
      Sockets and sessions are numbered in creation order. `refusedCodes` are the
      codes this browser's `close` throws on and never changes; `refusals` are the
      sockets on which it has thrown. */
  datatype State = State(
    socket: Option<nat>,
    status: ConnectionStatus,
    activeSessionId: Option<nat>,
    activeConnectionId: Option<EntityId>,
    isConnected: bool,
    selectedConnectionId: Option<EntityId>,
    lastReconnectAttemptAt: Option<real>,
    reconnectAttempts: nat,
    sockets: seq<Socket>,
    normalizing: seq<nat>,
    delayedReconnects: seq<EntityId>,
    journal: seq<Call>,
    sessionCount: nat,
    refusedCodes: set<int>,
    refusals: set<nat>)

  /** What the surroundings answer during one `connect`: demo mode, endpoint
      resolution and validation, the `WebSocket` constructor, and the saved connection
      that is found or made, which may be another than the one asked for. */
  datatype Outcome = Outcome(
    demoActive: bool, endpointOk: bool, constructorOk: bool,
    connection: EntityId, knownTarget: Option<EntityId>)

  datatype Event =
    | Connect(outcome: Outcome)
    | Disconnect
    | Dispose
    | Reconnect(requested: Option<EntityId>, now: real, outcome: Outcome)
    | ReconnectResumes(index: nat, outcome: Outcome)
    | SendMessage(blank: bool, throws: bool)
    | SaveConnection(accepted: bool, saved: EntityId)
    | RemoveConnection(removed: EntityId)
    | SelectConnection(selected: Option<EntityId>)
    | SocketAdvances(k: nat, to: ReadyState)
    | SocketOpens(k: nat)
    | SocketReceives(k: nat)
    | MessageNormalizes(index: nat, succeeds: bool)
    | SocketCloses(k: nat, code: int)
    | SocketErrs(k: nat)

  const RECONNECT_COOLDOWN_MS := 900.0

  function Initial(refusedCodes: set<int>): State {
    State(None, Idle, None, None, false, None, None, 0, [], [], [], [], 0, refusedCodes, {})
  }

  predicate IsLive(socket: Socket) {
    socket.readyState == SocketOpen || socket.readyState == SocketConnecting
  }

  predicate HasSocket(s: State, k: nat) { k < |s.sockets| }

  predicate IsCurrentSocket(s: State, k: nat)
    requires HasSocket(s, k)
  {
    s.socket == Some(k) && s.activeSessionId == Some(s.sockets[k].session)
  }

  predicate CurrentIs(s: State, states: set<ReadyState>) {
    s.socket.Some? && HasSocket(s, s.socket.value) && s.sockets[s.socket.value].readyState in states
  }

  function Log(s: State, call: Call): State { s.(journal := s.journal + [call]) }

  function Detach(s: State, k: nat): State
    requires HasSocket(s, k)
  {
    s.(sockets := s.sockets[k := s.sockets[k].(attached := false)])
  }

  /** `closeSocket`: without a code while connecting, with one while open; a refused
      code throws, which the store swallows, and the socket stays open. */
  function Close(s: State, k: nat, code: int): State
    requires HasSocket(s, k)
  {
    match s.sockets[k].readyState
    case SocketClosed => s
    case SocketClosing => s
    case SocketConnecting => s.(sockets := s.sockets[k := s.sockets[k].(readyState := SocketClosing)])
    case SocketOpen =>
      if code in s.refusedCodes then s.(refusals := s.refusals + {k})
      else s.(sockets := s.sockets[k := s.sockets[k].(readyState := SocketClosing)])
  }

  function Cleanup(s: State, k: nat, code: int): State
    requires HasSocket(s, k)
  {
    Close(Detach(s, k), k, code)
  }

  function CleanupCurrent(s: State, code: int): State {
    if s.socket.Some? && HasSocket(s, s.socket.value) then Cleanup(s, s.socket.value, code) else s
  }

  predicate ConnectGoesAhead(s: State, outcome: Outcome) {
    !outcome.demoActive && !CurrentIs(s, {SocketOpen, SocketConnecting})
  }

  predicate ConnectSucceeds(s: State, outcome: Outcome) {
    ConnectGoesAhead(s, outcome) && outcome.endpointOk && outcome.constructorOk
  }

  function AfterConnect(s: State, outcome: Outcome): State {
    if !ConnectGoesAhead(s, outcome) then s
    else
      var dropped := CleanupCurrent(s, 1000).(socket := None);
      if !outcome.endpointOk || !outcome.constructorOk then
        dropped.(isConnected := false, status := Failed,
                 selectedConnectionId := if outcome.knownTarget.Some? then outcome.knownTarget
                                         else dropped.selectedConnectionId)
      else Opened(dropped, outcome.connection)
  }

  /** A new socket with its handlers, and a new session for it. */
  function Opened(s: State, connection: EntityId): State {
    Log(s.(
          sockets := s.sockets + [Socket(SocketConnecting, true, s.sessionCount, connection)],
          sessionCount := s.sessionCount + 1,
          activeConnectionId := Some(connection),
          activeSessionId := Some(s.sessionCount),
          isConnected := false,
          selectedConnectionId := Some(connection),
          socket := Some(|s.sockets|),
          status := ConnectionStatus.Connecting),
        SessionStarted(s.sessionCount))
  }

  function Released(s: State, status: ConnectionStatus): State {
    s.(activeConnectionId := None, activeSessionId := None, isConnected := false, socket := None, status := status)
  }

  function MarkActive(s: State, mark: SessionStatus): State {
    if s.activeSessionId.Some? then Log(s, SessionMarked(s.activeSessionId.value, mark)) else s
  }

  function AfterDisconnect(s: State): State {
    Released(MarkActive(CleanupCurrent(s, 1000), Closed), Disconnected)
  }

  function AfterDispose(s: State): State {
    Released(MarkActive(CleanupCurrent(s, 1001), Closed), if s.status == Idle then Idle else Disconnected)
  }

  function ReconnectTarget(s: State, requested: Option<EntityId>): Option<EntityId> {
    if requested.Some? then requested
    else if s.selectedConnectionId.Some? then s.selectedConnectionId
    else s.activeConnectionId
  }

  predicate Truthy(id: Option<EntityId>) { id.Some? && id.value != "" }

  predicate InCooldown(s: State, now: real) {
    && s.lastReconnectAttemptAt.Some? && s.lastReconnectAttemptAt.value != 0.0
    && now - s.lastReconnectAttemptAt.value < RECONNECT_COOLDOWN_MS
  }

  predicate ReconnectRefused(s: State, requested: Option<EntityId>, now: real) {
    !Truthy(ReconnectTarget(s, requested)) || s.status == ConnectionStatus.Connecting || InCooldown(s, now)
  }

  function NoteReconnect(s: State, now: real): State {
    s.(lastReconnectAttemptAt := Some(now), reconnectAttempts := s.reconnectAttempts + 1)
  }

  /** Disconnects and leaves the rest of `reconnect` waiting for its 120 ms delay. */
  function DisconnectAndWait(s: State, id: EntityId): State {
    var disconnected := AfterDisconnect(s);
    disconnected.(delayedReconnects := disconnected.delayedReconnects + [id])
  }

  function AfterReconnect(s: State, requested: Option<EntityId>, now: real, outcome: Outcome): State {
    if ReconnectRefused(s, requested, now) then s
    else
      var target := ReconnectTarget(s, requested);
      if s.activeConnectionId == target && s.socket.Some? then DisconnectAndWait(NoteReconnect(s, now), target.value)
      else AfterConnect(NoteReconnect(s, now), outcome)
  }

  function TakeDelayed(s: State, index: nat): State
    requires index < |s.delayedReconnects|
  {
    s.(delayedReconnects := s.delayedReconnects[..index] + s.delayedReconnects[index + 1..])
  }

  function AfterResume(s: State, index: nat, outcome: Outcome): State {
    if index >= |s.delayedReconnects| then s else AfterConnect(TakeDelayed(s, index), outcome)
  }

  predicate CanSend(s: State, blank: bool) {
    !blank && CurrentIs(s, {SocketOpen}) && Truthy(s.activeConnectionId) && s.activeSessionId.Some?
  }

  function AfterSend(s: State, blank: bool, throws: bool): State {
    if !CanSend(s, blank) then s
    else if throws then Log(Released(CleanupCurrent(s, 1011), Failed), SessionMarked(s.activeSessionId.value, Error))
    else Log(s, PacketRecorded(s.activeSessionId.value, Outbound))
  }

  function Established(s: State, socket: Socket): State {
    s.(activeConnectionId := Some(socket.connection), activeSessionId := Some(socket.session),
       isConnected := true, reconnectAttempts := 0, selectedConnectionId := Some(socket.connection),
       status := ConnectionStatus.Connected)
  }

  function AfterOpen(s: State, k: nat): State {
    if !HasSocket(s, k) || !s.sockets[k].attached then s
    else if !IsCurrentSocket(s, k) then Cleanup(s, k, 1000)
    else Log(Established(s, s.sockets[k]), SessionMarked(s.sockets[k].session, SessionStatus.Connected))
  }

  function AfterMessage(s: State, k: nat): State {
    if !HasSocket(s, k) || !s.sockets[k].attached || !IsCurrentSocket(s, k) then s
    else s.(normalizing := s.normalizing + [k])
  }

  function TakeNormalizing(s: State, index: nat): State
    requires index < |s.normalizing|
  {
    s.(normalizing := s.normalizing[..index] + s.normalizing[index + 1..])
  }

  function AfterNormalize(s: State, index: nat, succeeds: bool): State {
    if index >= |s.normalizing| then s
    else
      var k := s.normalizing[index];
      if succeeds && HasSocket(s, k) && IsCurrentSocket(s, k) then
        Log(TakeNormalizing(s, index), PacketRecorded(s.sockets[k].session, Inbound))
      else TakeNormalizing(s, index)
  }

  /** The browser fires `close` once the socket is closed. */
  function AfterClose(s: State, k: nat, code: int): State {
    if !HasSocket(s, k) || !s.sockets[k].attached || s.sockets[k].readyState != SocketClosed then s
    else if !IsCurrentSocket(s, k) then Detach(s, k)
    else
      var failed := s.status == Failed || code == 1006;
      Log(Released(Detach(s, k), if failed then Failed else Disconnected),
          SessionMarked(s.sockets[k].session, if failed then Error else Closed))
  }

  function AfterError(s: State, k: nat): State {
    if !HasSocket(s, k) || !s.sockets[k].attached then s
    else if !IsCurrentSocket(s, k) then Detach(s, k)
    else Log(Released(Cleanup(s, k, 1011), Failed), SessionMarked(s.sockets[k].session, Error))
  }

  function AfterSave(s: State, accepted: bool, saved: EntityId): State {
    if !accepted then s.(status := Failed)
    else s.(selectedConnectionId := Some(saved), status := if Truthy(s.activeConnectionId) then s.status else Idle)
  }

  function AfterRemove(s: State, removed: EntityId): State {
    s.(activeConnectionId := if s.activeConnectionId == Some(removed) then None else s.activeConnectionId,
       selectedConnectionId := if s.selectedConnectionId == Some(removed) then None else s.selectedConnectionId)
  }

  /** Ready states only move forward. */
  function Rank(r: ReadyState): nat {
    match r
    case SocketConnecting => 0
    case SocketOpen => 1
    case SocketClosing => 2
    case SocketClosed => 3
  }

  function AfterAdvance(s: State, k: nat, to: ReadyState): State {
    if HasSocket(s, k) && Rank(s.sockets[k].readyState) < Rank(to) then
      s.(sockets := s.sockets[k := s.sockets[k].(readyState := to)])
    else s
  }

  function Step(s: State, e: Event): State {
    match e
    case Connect(outcome) => AfterConnect(s, outcome)
    case Disconnect => AfterDisconnect(s)
    case Dispose => AfterDispose(s)
    case Reconnect(requested, now, outcome) => AfterReconnect(s, requested, now, outcome)
    case ReconnectResumes(index, outcome) => AfterResume(s, index, outcome)
    case SendMessage(blank, throws) => AfterSend(s, blank, throws)
    case SaveConnection(accepted, saved) => AfterSave(s, accepted, saved)
    case RemoveConnection(removed) => AfterRemove(s, removed)
    case SelectConnection(selected) => s.(selectedConnectionId := selected)
    case SocketAdvances(k, to) => AfterAdvance(s, k, to)
    case SocketOpens(k) => AfterOpen(s, k)
    case SocketReceives(k) => AfterMessage(s, k)
    case MessageNormalizes(index, succeeds) => AfterNormalize(s, index, succeeds)
    case SocketCloses(k, code) => AfterClose(s, k, code)
    case SocketErrs(k) => AfterError(s, k)
  }

  function Run(s: State, events: seq<Event>): State
    decreases |events|
  {
    if events == [] then s else Run(Step(s, events[0]), events[1..])
  }

  /** The store object with the browser sockets it drives. Every method is one
      atomic step: none of the source's callbacks yields before it returns. */
  class ConnectionStoreObject {
    var socket: Option<nat>
    var status: ConnectionStatus
    var activeSessionId: Option<nat>
    var activeConnectionId: Option<EntityId>
    var isConnected: bool
    var selectedConnectionId: Option<EntityId>
    var lastReconnectAttemptAt: Option<real>
    var reconnectAttempts: nat
    var sockets: seq<Socket>
    var normalizing: seq<nat>
    var delayedReconnects: seq<EntityId>
    var journal: seq<Call>
    var sessionCount: nat
    var refusedCodes: set<int>
    var refusals: set<nat>

    function View(): State
      reads this
    {
      State(socket, status, activeSessionId, activeConnectionId, isConnected, selectedConnectionId,
            lastReconnectAttemptAt, reconnectAttempts, sockets, normalizing, delayedReconnects, journal,
            sessionCount, refusedCodes, refusals)
    }

    constructor (refused: set<int>)
      ensures View() == Initial(refused)
    {
      socket, status, activeSessionId, activeConnectionId := None, Idle, None, None;
      isConnected, selectedConnectionId, lastReconnectAttemptAt, reconnectAttempts := false, None, None, 0;
      sockets, normalizing, delayedReconnects, journal := [], [], [], [];
      sessionCount, refusedCodes, refusals := 0, refused, {};
    }

    method CloseSocket(k: nat, code: int)
      requires HasSocket(View(), k)
      modifies this`sockets, this`refusals
      ensures View() == Close(old(View()), k, code)
    {
      var readyState := sockets[k].readyState;
      if readyState == SocketClosed || readyState == SocketClosing {
        return;
      }
      if readyState == SocketOpen && code in refusedCodes {
        refusals := refusals + {k};
        return;
      }
      sockets := sockets[k := sockets[k].(readyState := SocketClosing)];
    }

    method DetachSocketHandlers(k: nat)
      requires HasSocket(View(), k)
      modifies this`sockets
      ensures View() == Detach(old(View()), k)
    {
      sockets := sockets[k := sockets[k].(attached := false)];
    }

    method CleanupSocket(k: nat, code: int)
      requires HasSocket(View(), k)
      modifies this`sockets, this`refusals
      ensures View() == Cleanup(old(View()), k, code)
    {
      DetachSocketHandlers(k);
      CloseSocket(k, code);
    }

    /** The part of the store's `set` that most steps share. */
    method SetActive(connection: Option<EntityId>, session: Option<nat>, connected: bool)
      modifies this`activeConnectionId, this`activeSessionId, this`isConnected
      ensures View() ==
              old(View()).(activeConnectionId := connection, activeSessionId := session, isConnected := connected)
    {
      activeConnectionId, activeSessionId, isConnected := connection, session, connected;
    }

    method SetSelected(connection: EntityId, next: ConnectionStatus)
      modifies this`selectedConnectionId, this`status
      ensures View() == old(View()).(selectedConnectionId := Some(connection), status := next)
    {
      selectedConnectionId, status := Some(connection), next;
    }

    method Release(next: ConnectionStatus)
      modifies this`activeConnectionId, this`activeSessionId, this`isConnected, this`socket, this`status
      ensures View() == Released(old(View()), next)
    {
      SetActive(None, None, false);
      socket, status := None, next;
    }

    method DoConnect(outcome: Outcome)
      requires socket.Some? ==> HasSocket(View(), socket.value)
      modifies this
      ensures View() == AfterConnect(old(View()), outcome)
    {
      if outcome.demoActive {
        return;
      }
      if socket.Some? {
        if IsLive(sockets[socket.value]) {
          return;
        }
        CleanupSocket(socket.value, 1000);
        socket := None;
      }
      if !outcome.endpointOk || !outcome.constructorOk {
        isConnected, status := false, Failed;
        if outcome.knownTarget.Some? {
          selectedConnectionId := outcome.knownTarget;
        }
        return;
      }
      Open(outcome.connection);
    }

    method StartSession() returns (session: nat)
      modifies this`sessionCount, this`journal
      ensures session == old(sessionCount)
      ensures View() == Log(old(View()), SessionStarted(session)).(sessionCount := session + 1)
    {
      session := sessionCount;
      sessionCount := session + 1;
      journal := journal + [SessionStarted(session)];
    }

    method AttachNewSocket(connection: EntityId) returns (k: nat)
      modifies this`sockets
      ensures k == |old(sockets)|
      ensures View() == old(View()).(
                sockets := old(sockets) + [Socket(SocketConnecting, true, sessionCount, connection)])
    {
      k := |sockets|;
      sockets := sockets + [Socket(SocketConnecting, true, sessionCount, connection)];
    }

    method Open(connection: EntityId)
      modifies this
      ensures View() == Opened(old(View()), connection)
    {
      var nextSocket := AttachNewSocket(connection);
      var session := StartSession();
      SetActive(Some(connection), Some(session), false);
      SetSelected(connection, ConnectionStatus.Connecting);
      socket := Some(nextSocket);
    }

    method DoDisconnect()
      requires socket.Some? ==> HasSocket(View(), socket.value)
      modifies this
      ensures View() == AfterDisconnect(old(View()))
    {
      if socket.Some? {
        CleanupSocket(socket.value, 1000);
      }
      if activeSessionId.Some? {
        journal := journal + [SessionMarked(activeSessionId.value, Closed)];
      }
      Release(Disconnected);
    }

    method DoDispose()
      requires socket.Some? ==> HasSocket(View(), socket.value)
      modifies this
      ensures View() == AfterDispose(old(View()))
    {
      if socket.Some? {
        CleanupSocket(socket.value, 1001);
      }
      if activeSessionId.Some? {
        journal := journal + [SessionMarked(activeSessionId.value, Closed)];
      }
      Release(if status == Idle then Idle else Disconnected);
    }

    method DoReconnect(requested: Option<EntityId>, now: real, outcome: Outcome)
      requires socket.Some? ==> HasSocket(View(), socket.value)
      modifies this
      ensures View() == AfterReconnect(old(View()), requested, now, outcome)
    {
      var target := ReconnectTarget(View(), requested);
      if !Truthy(target) || status == ConnectionStatus.Connecting || InCooldown(View(), now) {
        return;
      }
      NoteAttempt(now);
      if activeConnectionId == target && socket.Some? {
        DoDisconnect();
        delayedReconnects := delayedReconnects + [target.value];
      } else {
        DoConnect(outcome);
      }
    }

    method NoteAttempt(now: real)
      modifies this`lastReconnectAttemptAt, this`reconnectAttempts
      ensures View() == NoteReconnect(old(View()), now)
    {
      lastReconnectAttemptAt, reconnectAttempts := Some(now), reconnectAttempts + 1;
    }

    method ResumeReconnect(index: nat, outcome: Outcome)
      requires index < |delayedReconnects|
      requires socket.Some? ==> HasSocket(View(), socket.value)
      modifies this
      ensures View() == AfterResume(old(View()), index, outcome)
    {
      delayedReconnects := delayedReconnects[..index] + delayedReconnects[index + 1..];
      DoConnect(outcome);
    }

    method DoSendMessage(blank: bool, throws: bool)
      requires socket.Some? ==> HasSocket(View(), socket.value)
      modifies this
      ensures View() == AfterSend(old(View()), blank, throws)
    {
      if blank || socket.None? || sockets[socket.value].readyState != SocketOpen
         || !Truthy(activeConnectionId) || activeSessionId.None?
      {
        return;
      }
      var session := activeSessionId.value;
      if throws {
        CleanupSocket(socket.value, 1011);
        Release(Failed);
        journal := journal + [SessionMarked(session, Error)];
        return;
      }
      journal := journal + [PacketRecorded(session, Outbound)];
    }

    method OnOpen(k: nat)
      requires HasSocket(View(), k) && sockets[k].attached
      modifies this
      ensures View() == AfterOpen(old(View()), k)
    {
      if !IsCurrentSocket(View(), k) {
        CleanupSocket(k, 1000);
        return;
      }
      Establish(sockets[k]);
      journal := journal + [SessionMarked(sockets[k].session, SessionStatus.Connected)];
    }

    method Establish(socket: Socket)
      modifies this
      ensures View() == Established(old(View()), socket)
    {
      SetActive(Some(socket.connection), Some(socket.session), true);
      SetSelected(socket.connection, ConnectionStatus.Connected);
      reconnectAttempts := 0;
    }

    method OnMessage(k: nat)
      requires HasSocket(View(), k) && sockets[k].attached
      modifies this
      ensures View() == AfterMessage(old(View()), k)
    {
      if !IsCurrentSocket(View(), k) {
        return;
      }
      normalizing := normalizing + [k];
    }

    method ResumeNormalize(index: nat, succeeds: bool)
      requires index < |normalizing|
      modifies this
      ensures View() == AfterNormalize(old(View()), index, succeeds)
    {
      var k := normalizing[index];
      normalizing := normalizing[..index] + normalizing[index + 1..];
      if !succeeds || !HasSocket(View(), k) || !IsCurrentSocket(View(), k) {
        return;
      }
      journal := journal + [PacketRecorded(sockets[k].session, Inbound)];
    }

    method OnClose(k: nat, code: int)
      requires HasSocket(View(), k) && sockets[k].attached && sockets[k].readyState == SocketClosed
      modifies this
      ensures View() == AfterClose(old(View()), k, code)
    {
      if !IsCurrentSocket(View(), k) {
        DetachSocketHandlers(k);
        return;
      }
      DetachSocketHandlers(k);
      var failed := status == Failed || code == 1006;
      Release(if failed then Failed else Disconnected);
      journal := journal + [SessionMarked(sockets[k].session, if failed then Error else Closed)];
    }

    method OnError(k: nat)
      requires HasSocket(View(), k) && sockets[k].attached
      modifies this
      ensures View() == AfterError(old(View()), k)
    {
      if !IsCurrentSocket(View(), k) {
        DetachSocketHandlers(k);
        return;
      }
      CleanupSocket(k, 1011);
      Release(Failed);
      journal := journal + [SessionMarked(sockets[k].session, Error)];
    }

    method DoSaveConnection(accepted: bool, saved: EntityId)
      modifies this
      ensures View() == AfterSave(old(View()), accepted, saved)
    {
      if !accepted {
        status := Failed;
        return;
      }
      selectedConnectionId := Some(saved);
      if !Truthy(activeConnectionId) {
        status := Idle;
      }
    }

    method DoRemoveConnection(removed: EntityId)
      modifies this
      ensures View() == AfterRemove(old(View()), removed)
    {
      if activeConnectionId == Some(removed) {
        activeConnectionId := None;
      }
      if selectedConnectionId == Some(removed) {
        selectedConnectionId := None;
      }
    }
  }
}
