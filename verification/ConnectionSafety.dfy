/** What every interleaving of connection-store steps keeps. */
module ConnectionSafety {
  import opened Sequences
  import opened Models
  import opened ConnectionStore

  // -- The journal ---------------------------------------------------------------

  predicate Ends(call: Call, session: nat) {
    call.SessionMarked? && call.session == session && (call.mark == Closed || call.mark == Error)
  }

  /** The sessions some call has marked closed or failed. */
  function Ended(journal: seq<Call>): set<nat> {
    if journal == [] then {}
    else
      var last := journal[|journal| - 1];
      Ended(journal[..|journal| - 1]) + if Ends(last, last.session) then {last.session} else {}
  }

  /** No call names a session after its end, and each session is started once. */
  predicate JournalKeepsEnds(journal: seq<Call>) {
    journal != [] ==>
      var before, last := journal[..|journal| - 1], journal[|journal| - 1];
      && JournalKeepsEnds(before)
      && last.session !in Ended(before)
  }

  lemma AppendCall(journal: seq<Call>, call: Call)
    ensures Ended(journal + [call]) == Ended(journal) + if Ends(call, call.session) then {call.session} else {}
    ensures JournalKeepsEnds(journal + [call]) <==> JournalKeepsEnds(journal) && call.session !in Ended(journal)
  {
    assert (journal + [call])[..|journal|] == journal;
  }

  lemma {:induction false} EndedMember(journal: seq<Call>, i: nat, session: nat)
    requires i < |journal| && Ends(journal[i], session)
    ensures session in Ended(journal)
  {
    if i < |journal| - 1 {
      EndedMember(journal[..|journal| - 1], i, session);
    }
  }

  /** Read off the journal: after a call ends a session, no later call names it. */
  lemma {:induction false} NothingAfterTheEnd(journal: seq<Call>, i: nat, j: nat, session: nat)
    requires JournalKeepsEnds(journal) && i < j < |journal| && Ends(journal[i], session)
    ensures journal[j].session != session
  {
    var before := journal[..|journal| - 1];
    if j == |journal| - 1 {
      EndedMember(before, i, session);
    } else {
      NothingAfterTheEnd(before, i, j, session);
    }
  }

  // -- The invariant ---------------------------------------------------------------

  ghost predicate HandlersFollowSocket(s: State) {
    forall k :: 0 <= k < |s.sockets| ==> (s.sockets[k].attached <==> s.socket == Some(k))
  }

  ghost predicate LiveSocketsOwned(s: State) {
    forall k :: 0 <= k < |s.sockets| && IsLive(s.sockets[k]) ==> s.socket == Some(k) || k in s.refusals
  }

  ghost predicate SessionsNumbered(s: State) {
    && (forall k :: 0 <= k < |s.sockets| ==> s.sockets[k].session < s.sessionCount)
    && (forall id :: id in Ended(s.journal) ==> id < s.sessionCount)
  }

  ghost predicate Invariant(s: State) {
    && HandlersFollowSocket(s)
    && LiveSocketsOwned(s)
    && SessionsNumbered(s)
    && (s.socket.Some? ==> HasSocket(s, s.socket.value)
                           && s.activeSessionId == Some(s.sockets[s.socket.value].session))
    && (s.isConnected ==> s.socket.Some?)
    && (s.activeSessionId.Some? ==> s.activeSessionId.value < s.sessionCount
                                    && s.activeSessionId.value !in Ended(s.journal))
    && JournalKeepsEnds(s.journal)
  }

  lemma InitialInvariant(refusedCodes: set<int>)
    ensures Invariant(Initial(refusedCodes))
  {
  }

  /** No handler is attached and every live socket is one `close` was refused on. */
  ghost predicate Quiet(s: State) {
    && (forall k :: 0 <= k < |s.sockets| ==> !s.sockets[k].attached)
    && (forall k :: 0 <= k < |s.sockets| && IsLive(s.sockets[k]) ==> k in s.refusals)
    && SessionsNumbered(s)
    && JournalKeepsEnds(s.journal)
  }

  lemma CleanupIsQuiet(s: State, code: int)
    requires Invariant(s)
    ensures Quiet(CleanupCurrent(s, code))
  {
  }

  lemma DetachIsQuiet(s: State, k: nat)
    requires Invariant(s) && s.socket == Some(k) && s.sockets[k].readyState == SocketClosed
    ensures Quiet(Detach(s, k))
  {
  }

  lemma LogIsQuiet(s: State, call: Call)
    requires Quiet(s) && call.session < s.sessionCount && call.session !in Ended(s.journal)
    ensures Quiet(Log(s, call))
  {
    AppendCall(s.journal, call);
  }

  lemma ReleasedKeeps(s: State, status: ConnectionStatus)
    requires Quiet(s)
    ensures Invariant(Released(s, status))
  {
  }

  lemma LogKeeps(s: State, call: Call)
    requires Invariant(s) && s.activeSessionId == Some(call.session) && !Ends(call, call.session)
    ensures Invariant(Log(s, call))
  {
    AppendCall(s.journal, call);
  }

  lemma OpenedKeeps(s: State, connection: EntityId)
    requires Quiet(s)
    ensures Invariant(Opened(s, connection))
  {
    AppendCall(s.journal, SessionStarted(s.sessionCount));
  }

  lemma DroppedKeeps(s: State, t: State)
    requires Invariant(s) && Quiet(t) && t.socket == None && !t.isConnected
    requires t.activeSessionId == s.activeSessionId && t.journal == s.journal && t.sessionCount == s.sessionCount
    ensures Invariant(t)
  {
  }

  lemma ConnectKeeps(s: State, outcome: Outcome)
    requires Invariant(s)
    ensures Invariant(AfterConnect(s, outcome))
  {
    if ConnectGoesAhead(s, outcome) {
      CleanupIsQuiet(s, 1000);
      var dropped := CleanupCurrent(s, 1000).(socket := None);
      assert Quiet(dropped);
      if ConnectSucceeds(s, outcome) {
        OpenedKeeps(dropped, outcome.connection);
      } else {
        var failed := AfterConnect(s, outcome);
        assert Quiet(failed);
        DroppedKeeps(s, failed);
      }
    }
  }

  lemma DisconnectKeeps(s: State, code: int, status: ConnectionStatus)
    requires Invariant(s)
    ensures Invariant(Released(MarkActive(CleanupCurrent(s, code), Closed), status))
  {
    var cleaned := CleanupCurrent(s, code);
    CleanupIsQuiet(s, code);
    if s.activeSessionId.Some? {
      LogIsQuiet(cleaned, SessionMarked(s.activeSessionId.value, Closed));
    }
    ReleasedKeeps(MarkActive(cleaned, Closed), status);
  }

  lemma NoteKeeps(s: State, now: real)
    requires Invariant(s)
    ensures Invariant(NoteReconnect(s, now))
  {
  }

  lemma WaitKeeps(s: State, id: EntityId)
    requires Invariant(s)
    ensures Invariant(DisconnectAndWait(s, id))
  {
    DisconnectKeeps(s, 1000, Disconnected);
    var disconnected := AfterDisconnect(s);
    assert Invariant(disconnected);
  }

  lemma ReconnectKeeps(s: State, requested: Option<EntityId>, now: real, outcome: Outcome)
    requires Invariant(s)
    ensures Invariant(AfterReconnect(s, requested, now, outcome))
  {
    if !ReconnectRefused(s, requested, now) {
      var target := ReconnectTarget(s, requested);
      NoteKeeps(s, now);
      WaitKeeps(NoteReconnect(s, now), target.value);
      ConnectKeeps(NoteReconnect(s, now), outcome);
    }
  }

  lemma ResumeKeeps(s: State, index: nat, outcome: Outcome)
    requires Invariant(s)
    ensures Invariant(AfterResume(s, index, outcome))
  {
    if index < |s.delayedReconnects| {
      assert Invariant(TakeDelayed(s, index));
      ConnectKeeps(TakeDelayed(s, index), outcome);
    }
  }

  lemma SendKeeps(s: State, blank: bool, throws: bool)
    requires Invariant(s)
    ensures Invariant(AfterSend(s, blank, throws))
  {
    if CanSend(s, blank) {
      if throws {
        CleanupIsQuiet(s, 1011);
        var marked := Log(CleanupCurrent(s, 1011), SessionMarked(s.activeSessionId.value, Error));
        LogIsQuiet(CleanupCurrent(s, 1011), SessionMarked(s.activeSessionId.value, Error));
        ReleasedKeeps(marked, Failed);
      } else {
        LogKeeps(s, PacketRecorded(s.activeSessionId.value, Outbound));
      }
    }
  }

  lemma OpenKeeps(s: State, k: nat)
    requires Invariant(s)
    ensures Invariant(AfterOpen(s, k))
  {
    if HasSocket(s, k) && s.sockets[k].attached {
      assert Invariant(Established(s, s.sockets[k]));
      LogKeeps(Established(s, s.sockets[k]), SessionMarked(s.sockets[k].session, SessionStatus.Connected));
    }
  }

  lemma CloseKeeps(s: State, k: nat, code: int)
    requires Invariant(s)
    ensures Invariant(AfterClose(s, k, code))
  {
    if HasSocket(s, k) && s.sockets[k].attached && s.sockets[k].readyState == SocketClosed {
      var failed := s.status == Failed || code == 1006;
      var call := SessionMarked(s.sockets[k].session, if failed then Error else Closed);
      DetachIsQuiet(s, k);
      LogIsQuiet(Detach(s, k), call);
      ReleasedKeeps(Log(Detach(s, k), call), if failed then Failed else Disconnected);
    }
  }

  lemma ErrorKeeps(s: State, k: nat)
    requires Invariant(s)
    ensures Invariant(AfterError(s, k))
  {
    if HasSocket(s, k) && s.sockets[k].attached {
      var call := SessionMarked(s.sockets[k].session, Error);
      assert IsCurrentSocket(s, k) && CleanupCurrent(s, 1011) == Cleanup(s, k, 1011);
      CleanupIsQuiet(s, 1011);
      LogIsQuiet(CleanupCurrent(s, 1011), call);
      ReleasedKeeps(Log(CleanupCurrent(s, 1011), call), Failed);
    }
  }

  lemma NormalizeKeeps(s: State, index: nat, succeeds: bool)
    requires Invariant(s)
    ensures Invariant(AfterNormalize(s, index, succeeds))
  {
    if index < |s.normalizing| && HasSocket(s, s.normalizing[index]) {
      var taken := TakeNormalizing(s, index);
      assert Invariant(taken);
      if IsCurrentSocket(s, s.normalizing[index]) {
        LogKeeps(taken, PacketRecorded(s.sockets[s.normalizing[index]].session, Inbound));
      }
    }
  }

  lemma StepKeepsInvariant(s: State, e: Event)
    requires Invariant(s)
    ensures Invariant(Step(s, e))
  {
    match e
    case Connect(outcome) => ConnectKeeps(s, outcome);
    case Disconnect => DisconnectKeeps(s, 1000, Disconnected);
    case Dispose => DisconnectKeeps(s, 1001, if s.status == Idle then Idle else Disconnected);
    case Reconnect(requested, now, outcome) => ReconnectKeeps(s, requested, now, outcome);
    case ReconnectResumes(index, outcome) => ResumeKeeps(s, index, outcome);
    case SendMessage(blank, throws) => SendKeeps(s, blank, throws);
    case SaveConnection(accepted, saved) =>
    case RemoveConnection(removed) =>
    case SelectConnection(selected) =>
    case SocketAdvances(k, to) =>
    case MessageNormalizes(index, succeeds) => NormalizeKeeps(s, index, succeeds);
    case SocketOpens(k) => OpenKeeps(s, k);
    case SocketReceives(k) =>
    case SocketCloses(k, code) => CloseKeeps(s, k, code);
    case SocketErrs(k) => ErrorKeeps(s, k);
  }

  lemma {:induction false} RunKeepsInvariant(s: State, events: seq<Event>)
    requires Invariant(s)
    ensures Invariant(Run(s, events))
    decreases |events|
  {
    if events != [] {
      StepKeepsInvariant(s, events[0]);
      RunKeepsInvariant(Step(s, events[0]), events[1..]);
    }
  }

  // -- Main results ------------------------------------------------------------------

  /** In every run, on every browser: handlers sit on the store's socket and nowhere
      else, a connected store has a socket and an active session, and the active
      session has not ended. */
  lemma EveryRun(refusedCodes: set<int>, events: seq<Event>)
    ensures var s := Run(Initial(refusedCodes), events);
            && (forall k :: 0 <= k < |s.sockets| ==> (s.sockets[k].attached <==> s.socket == Some(k)))
            && (s.isConnected ==> s.socket.Some? && s.activeSessionId.Some?)
            && (s.activeSessionId.Some? ==>
                  forall i :: 0 <= i < |s.journal| ==> !Ends(s.journal[i], s.activeSessionId.value))
  {
    InitialInvariant(refusedCodes);
    RunKeepsInvariant(Initial(refusedCodes), events);
    var s := Run(Initial(refusedCodes), events);
    if s.activeSessionId.Some? {
      forall i | 0 <= i < |s.journal| ensures !Ends(s.journal[i], s.activeSessionId.value) {
        if Ends(s.journal[i], s.activeSessionId.value) {
          EndedMember(s.journal, i, s.activeSessionId.value);
        }
      }
    }
  }

  /** Once a session is marked closed or failed, the store never marks it again and
      never records a packet into it. */
  lemma EndedSessionsStayEnded(refusedCodes: set<int>, events: seq<Event>, i: nat, j: nat)
    requires var journal := Run(Initial(refusedCodes), events).journal;
             i < j < |journal| && Ends(journal[i], journal[i].session)
    ensures var journal := Run(Initial(refusedCodes), events).journal;
            journal[j].session != journal[i].session
  {
    InitialInvariant(refusedCodes);
    RunKeepsInvariant(Initial(refusedCodes), events);
    var journal := Run(Initial(refusedCodes), events).journal;
    NothingAfterTheEnd(journal, i, j, journal[i].session);
  }

  predicate Accepting(s: State) { s.refusedCodes == {} && s.refusals == {} }

  lemma ConnectAccepts(s: State, outcome: Outcome)
    requires Accepting(s)
    ensures Accepting(AfterConnect(s, outcome))
  {
  }

  lemma CleanupAccepts(s: State, k: nat, code: int)
    requires Accepting(s) && HasSocket(s, k)
    ensures Accepting(Cleanup(s, k, code))
  {
  }

  lemma ReconnectAccepts(s: State, requested: Option<EntityId>, now: real, outcome: Outcome)
    requires Accepting(s)
    ensures Accepting(AfterReconnect(s, requested, now, outcome))
  {
    if !ReconnectRefused(s, requested, now) {
      ConnectAccepts(NoteReconnect(s, now), outcome);
    }
  }

  lemma HandlerAccepts(s: State, e: Event)
    requires Accepting(s)
    requires e.SocketOpens? || e.SocketReceives? || e.SocketCloses? || e.SocketErrs? || e.MessageNormalizes?
    ensures Accepting(Step(s, e))
  {
  }

  lemma StepAccepts(s: State, e: Event)
    requires Accepting(s)
    ensures Accepting(Step(s, e))
  {
    match e
    case Connect(outcome) => ConnectAccepts(s, outcome);
    case Reconnect(requested, now, outcome) => ReconnectAccepts(s, requested, now, outcome);
    case ReconnectResumes(index, outcome) =>
      if index < |s.delayedReconnects| {
        ConnectAccepts(TakeDelayed(s, index), outcome);
      }
    case SendMessage(blank, throws) =>
      if s.socket.Some? && HasSocket(s, s.socket.value) { CleanupAccepts(s, s.socket.value, 1011); }
    case Disconnect =>
    case Dispose =>
    case SaveConnection(_, _) =>
    case RemoveConnection(_) =>
    case SelectConnection(_) =>
    case SocketAdvances(_, _) =>
    case _ => HandlerAccepts(s, e);
  }

  lemma {:induction false} NothingRefused(s: State, events: seq<Event>)
    requires Accepting(s)
    ensures Accepting(Run(s, events))
    decreases |events|
  {
    if events != [] {
      StepAccepts(s, events[0]);
      NothingRefused(Step(s, events[0]), events[1..]);
    }
  }

  /** If the browser accepts every `close` call, at most one socket is connecting or
      open in any run. */
  lemma AtMostOneLiveSocket(events: seq<Event>, j: nat, k: nat)
    requires var s := Run(Initial({}), events);
             HasSocket(s, j) && HasSocket(s, k) && IsLive(s.sockets[j]) && IsLive(s.sockets[k])
    ensures j == k
  {
    InitialInvariant({});
    RunKeepsInvariant(Initial({}), events);
    NothingRefused(Initial({}), events);
  }

  /** The live sockets the store no longer holds. */
  function Leaked(s: State): set<nat> {
    set k | 0 <= k < |s.sockets| && IsLive(s.sockets[k]) && s.socket != Some(k)
  }

  /** The code with which a step closes the store's own socket, if it does. */
  function ClosingCode(s: State, e: Event): Option<int> {
    match e
    case Disconnect => Some(1000)
    case Dispose => Some(1001)
    case Reconnect(requested, now, _) =>
      if !ReconnectRefused(s, requested, now) && s.activeConnectionId == ReconnectTarget(s, requested)
      then Some(1000) else None
    case SendMessage(blank, throws) => if CanSend(s, blank) && throws then Some(1011) else None
    case SocketErrs(k) => if s.socket == Some(k) then Some(1011) else None
    case _ => None
  }

  predicate CloseIsRefused(s: State, e: Event) {
    CurrentIs(s, {SocketOpen}) && ClosingCode(s, e).Some? && ClosingCode(s, e).value in s.refusedCodes
  }

  lemma CleanupLeak(s: State, code: int)
    requires Invariant(s)
    ensures var cleaned := CleanupCurrent(s, code).(socket := None);
            Leaked(cleaned) == Leaked(s) +
              if CurrentIs(s, {SocketOpen}) && code in s.refusedCodes then {s.socket.value} else {}
    ensures s.socket.Some? ==> s.socket.value !in Leaked(s)
  {
    var cleaned := CleanupCurrent(s, code).(socket := None);
    forall k ensures k in Leaked(cleaned) <==>
      k in Leaked(s) || (s.socket == Some(k) && CurrentIs(s, {SocketOpen}) && code in s.refusedCodes)
    {
    }
  }

  lemma SameSocketsSameLeak(s: State, t: State)
    requires s.sockets == t.sockets && s.socket == t.socket
    ensures Leaked(s) == Leaked(t)
  {
  }

  lemma ConnectLeak(s: State, outcome: Outcome)
    requires Invariant(s)
    ensures Leaked(AfterConnect(s, outcome)) == Leaked(s)
  {
    CleanupLeak(s, 1000);
    var dropped, after := CleanupCurrent(s, 1000).(socket := None), AfterConnect(s, outcome);
    if ConnectSucceeds(s, outcome) {
      forall k ensures k in Leaked(after) <==> k in Leaked(dropped) {
      }
    } else if ConnectGoesAhead(s, outcome) {
      SameSocketsSameLeak(after, dropped);
    }
  }

  lemma CloseDownLeak(s: State, t: State, code: int)
    requires Invariant(s)
    requires t.sockets == CleanupCurrent(s, code).sockets && t.socket == None
    ensures Leaked(t) <= Leaked(s) <==> !(CurrentIs(s, {SocketOpen}) && code in s.refusedCodes)
  {
    CleanupLeak(s, code);
    SameSocketsSameLeak(t, CleanupCurrent(s, code).(socket := None));
  }

  lemma ReconnectLeak(s: State, requested: Option<EntityId>, now: real, outcome: Outcome)
    requires Invariant(s)
    ensures var e := Reconnect(requested, now, outcome);
            Leaked(Step(s, e)) <= Leaked(s) <==> !CloseIsRefused(s, e)
  {
    if !ReconnectRefused(s, requested, now) {
      var noted, target := NoteReconnect(s, now), ReconnectTarget(s, requested);
      NoteKeeps(s, now);
      SameSocketsSameLeak(s, noted);
      if s.activeConnectionId == target && s.socket.Some? {
        CloseDownLeak(noted, DisconnectAndWait(noted, target.value), 1000);
      } else {
        ConnectLeak(noted, outcome);
      }
    }
  }

  lemma HandlerLeak(s: State, e: Event)
    requires Invariant(s)
    requires e.SocketOpens? || e.SocketReceives? || e.SocketCloses? || e.SocketErrs?
    ensures Leaked(Step(s, e)) <= Leaked(s) <==> !CloseIsRefused(s, e)
  {
    match e
    case SocketErrs(k) =>
      if s.socket == Some(k) {
        assert IsCurrentSocket(s, k) && CleanupCurrent(s, 1011) == Cleanup(s, k, 1011);
        CloseDownLeak(s, AfterError(s, k), 1011);
      }
    case SocketCloses(k, code) =>
    case _ => SameSocketsSameLeak(Step(s, e), s);
  }

  lemma SendLeak(s: State, blank: bool, throws: bool)
    requires Invariant(s)
    ensures var e := SendMessage(blank, throws);
            Leaked(Step(s, e)) <= Leaked(s) <==> !CloseIsRefused(s, e)
  {
    if CanSend(s, blank) && throws {
      CloseDownLeak(s, AfterSend(s, blank, throws), 1011);
    } else {
      SameSocketsSameLeak(AfterSend(s, blank, throws), s);
    }
  }

  /** Exactly when a step lets go of a socket that is still live: when it closes the
      store's open socket with a code the browser refuses. */
  lemma SocketLeaksIffCloseRefused(s: State, e: Event)
    requires Invariant(s)
    ensures Leaked(Step(s, e)) <= Leaked(s) <==> !CloseIsRefused(s, e)
  {
    match e
    case Connect(outcome) => ConnectLeak(s, outcome);
    case Disconnect => CloseDownLeak(s, AfterDisconnect(s), 1000);
    case Dispose => CloseDownLeak(s, AfterDispose(s), 1001);
    case Reconnect(requested, now, outcome) => ReconnectLeak(s, requested, now, outcome);
    case ReconnectResumes(index, outcome) =>
      if index < |s.delayedReconnects| {
        assert Invariant(TakeDelayed(s, index));
        SameSocketsSameLeak(s, TakeDelayed(s, index));
        ConnectLeak(TakeDelayed(s, index), outcome);
      }
    case SendMessage(blank, throws) => SendLeak(s, blank, throws);
    case SaveConnection(_, _) => SameSocketsSameLeak(Step(s, e), s);
    case RemoveConnection(_) => SameSocketsSameLeak(Step(s, e), s);
    case SelectConnection(_) => SameSocketsSameLeak(Step(s, e), s);
    case SocketAdvances(k, to) =>
    case MessageNormalizes(_, _) => SameSocketsSameLeak(Step(s, e), s);
    case _ => HandlerLeak(s, e);
  }

  function GoodOutcome(): Outcome { Outcome(false, true, true, "connection", None) }

  /** A browser that, as the WHATWG standard asks, refuses code 1001: disposing of an
      open socket leaves it open, and the next `connect` makes a second live one. */
  lemma DisposeCanLeakASocket()
    ensures var events := [Connect(GoodOutcome()), SocketAdvances(0, SocketOpen), Dispose, Connect(GoodOutcome())];
            var s := Run(Initial({1001}), events);
            |s.sockets| == 2 && IsLive(s.sockets[0]) && IsLive(s.sockets[1])
  {
    var s := Disposed();
    RunFour(Initial({1001}), Connect(GoodOutcome()), SocketAdvances(0, SocketOpen), Dispose, Connect(GoodOutcome()));
    assert s.socket == None && s.sockets == [Socket(SocketOpen, false, 0, "connection")];
    assert Step(s, Connect(GoodOutcome())) == AfterConnect(s, GoodOutcome());
  }

  lemma RunFour(s: State, a: Event, b: Event, c: Event, d: Event)
    ensures Run(s, [a, b, c, d]) == Step(Step(Step(Step(s, a), b), c), d)
  {
    var s1, s2, s3 := Step(s, a), Step(Step(s, a), b), Step(Step(Step(s, a), b), c);
    assert [a, b, c, d][1..] == [b, c, d] && [b, c, d][1..] == [c, d] && [c, d][1..] == [d] && [d][1..] == [];
    assert Run(s3, [d]) == Step(s3, d) && Run(s2, [c, d]) == Run(s3, [d]) && Run(s1, [b, c, d]) == Run(s2, [c, d]);
  }

  /** The store after connecting, opening and disposing, in a browser that refuses 1001. */
  function Disposed(): (s: State)
    ensures s.socket == None && s.sockets == [Socket(SocketOpen, false, 0, "connection")]
  {
    var first := Step(Initial({1001}), Connect(GoodOutcome()));
    assert first.socket == Some(0) && first.sockets == [Socket(SocketConnecting, true, 0, "connection")];
    Step(Step(first, SocketAdvances(0, SocketOpen)), Dispose)
  }

  // -- Sessions left open ---------------------------------------------------------------

  /** A session the store started, never marked ended, and no longer holds. */
  predicate Orphan(s: State, id: nat) {
    id < s.sessionCount && id !in Ended(s.journal) && s.activeSessionId != Some(id)
  }

  /** The step opens a connection while a session is still active. */
  predicate OverwritesSession(s: State, e: Event) {
    && s.activeSessionId.Some?
    && match e
       case Connect(outcome) => ConnectSucceeds(s, outcome)
       case Reconnect(requested, now, outcome) =>
         && !ReconnectRefused(s, requested, now)
         && !(s.activeConnectionId == ReconnectTarget(s, requested) && s.socket.Some?)
         && ConnectSucceeds(s, outcome)
       case ReconnectResumes(index, outcome) => index < |s.delayedReconnects| && ConnectSucceeds(s, outcome)
       case _ => false
  }

  lemma ConnectOrphans(s: State, outcome: Outcome, id: nat)
    requires Invariant(s)
    ensures Orphan(AfterConnect(s, outcome), id) <==>
            Orphan(s, id) || (ConnectSucceeds(s, outcome) && s.activeSessionId == Some(id))
  {
    AppendCall(s.journal, SessionStarted(s.sessionCount));
  }

  lemma ReleaseOrphans(s: State, code: int, status: ConnectionStatus, id: nat)
    requires Invariant(s)
    ensures Orphan(Released(MarkActive(CleanupCurrent(s, code), Closed), status), id) <==> Orphan(s, id)
  {
    if s.activeSessionId.Some? {
      AppendCall(s.journal, SessionMarked(s.activeSessionId.value, Closed));
    }
  }

  lemma OpenOrphans(s: State, k: nat, id: nat)
    requires Invariant(s)
    ensures Orphan(AfterOpen(s, k), id) <==> Orphan(s, id)
  {
    if HasSocket(s, k) {
      AppendCall(s.journal, SessionMarked(s.sockets[k].session, SessionStatus.Connected));
    }
  }

  lemma CloseOrphans(s: State, k: nat, code: int, id: nat)
    requires Invariant(s)
    ensures Orphan(AfterClose(s, k, code), id) <==> Orphan(s, id)
  {
    if HasSocket(s, k) {
      AppendCall(s.journal, SessionMarked(s.sockets[k].session, Closed));
      AppendCall(s.journal, SessionMarked(s.sockets[k].session, Error));
    }
  }

  lemma ErrorOrphans(s: State, k: nat, id: nat)
    requires Invariant(s)
    ensures Orphan(AfterError(s, k), id) <==> Orphan(s, id)
  {
    if HasSocket(s, k) {
      AppendCall(s.journal, SessionMarked(s.sockets[k].session, Error));
    }
  }

  lemma SendOrphans(s: State, blank: bool, throws: bool, id: nat)
    requires Invariant(s)
    ensures Orphan(AfterSend(s, blank, throws), id) <==> Orphan(s, id)
  {
    if CanSend(s, blank) {
      AppendCall(s.journal, SessionMarked(s.activeSessionId.value, Error));
      AppendCall(s.journal, PacketRecorded(s.activeSessionId.value, Outbound));
    }
  }

  lemma NormalizeOrphans(s: State, index: nat, succeeds: bool, id: nat)
    requires Invariant(s)
    ensures Orphan(AfterNormalize(s, index, succeeds), id) <==> Orphan(s, id)
  {
    if index < |s.normalizing| && HasSocket(s, s.normalizing[index]) {
      AppendCall(s.journal, PacketRecorded(s.sockets[s.normalizing[index]].session, Inbound));
    }
  }

  lemma ReconnectOrphans(s: State, requested: Option<EntityId>, now: real, outcome: Outcome, id: nat)
    requires Invariant(s)
    ensures var e := Reconnect(requested, now, outcome);
            Orphan(Step(s, e), id) <==> Orphan(s, id) || (OverwritesSession(s, e) && s.activeSessionId == Some(id))
  {
    if !ReconnectRefused(s, requested, now) {
      NoteKeeps(s, now);
      if s.activeConnectionId == ReconnectTarget(s, requested) && s.socket.Some? {
        ReleaseOrphans(NoteReconnect(s, now), 1000, Disconnected, id);
      } else {
        ConnectOrphans(NoteReconnect(s, now), outcome, id);
      }
    }
  }

  /** Exactly when a session is left without an end: when a successful `connect`
      overwrites an active session, which it can because it first dropped a closing
      socket without closing that socket's session. */
  lemma SessionOrphanedIffOverwritten(s: State, e: Event, id: nat)
    requires Invariant(s)
    ensures Orphan(Step(s, e), id) <==>
            Orphan(s, id) || (OverwritesSession(s, e) && s.activeSessionId == Some(id))
  {
    match e
    case Connect(outcome) => ConnectOrphans(s, outcome, id);
    case Disconnect => ReleaseOrphans(s, 1000, Disconnected, id);
    case Dispose => ReleaseOrphans(s, 1001, if s.status == Idle then Idle else Disconnected, id);
    case Reconnect(requested, now, outcome) => ReconnectOrphans(s, requested, now, outcome, id);
    case ReconnectResumes(index, outcome) =>
      if index < |s.delayedReconnects| {
        assert Invariant(TakeDelayed(s, index));
        ConnectOrphans(TakeDelayed(s, index), outcome, id);
      }
    case SendMessage(blank, throws) => SendOrphans(s, blank, throws, id);
    case MessageNormalizes(index, succeeds) => NormalizeOrphans(s, index, succeeds, id);
    case SocketOpens(k) => OpenOrphans(s, k, id);
    case SocketCloses(k, code) => CloseOrphans(s, k, code, id);
    case SocketErrs(k) => ErrorOrphans(s, k, id);
    case _ =>
  }

  /** It does happen: a socket that is closing is dropped by the next `connect`, whose
      session replaces one that never ends. */
  lemma ConnectCanOrphanASession()
    ensures var events := [Connect(GoodOutcome()), SocketAdvances(0, SocketClosing), Connect(GoodOutcome())];
            Orphan(Run(Initial({}), events), 0)
  {
    var s := WhileClosing();
    RunThree(Initial({}), Connect(GoodOutcome()), SocketAdvances(0, SocketClosing), Connect(GoodOutcome()));
    InitialInvariant({});
    RunKeepsInvariant(Initial({}), [Connect(GoodOutcome()), SocketAdvances(0, SocketClosing)]);
    RunTwo(Initial({}), Connect(GoodOutcome()), SocketAdvances(0, SocketClosing));
    SessionOrphanedIffOverwritten(s, Connect(GoodOutcome()), 0);
  }

  lemma RunTwo(s: State, a: Event, b: Event)
    ensures Run(s, [a, b]) == Step(Step(s, a), b)
  {
    assert [a, b][1..] == [b] && [b][1..] == [];
    assert Run(Step(s, a), [b]) == Step(Step(s, a), b);
  }

  lemma RunThree(s: State, a: Event, b: Event, c: Event)
    ensures Run(s, [a, b, c]) == Step(Step(Step(s, a), b), c)
  {
    assert [a, b, c][1..] == [b, c];
    RunTwo(Step(s, a), b, c);
  }

  /** The store after connecting, while the socket is closing. */
  function WhileClosing(): (s: State)
    ensures s.activeSessionId == Some(0) && s.socket == Some(0)
    ensures s.sockets == [Socket(SocketClosing, true, 0, "connection")]
  {
    var first := Step(Initial({}), Connect(GoodOutcome()));
    assert first.sockets == [Socket(SocketConnecting, true, 0, "connection")];
    Step(first, SocketAdvances(0, SocketClosing))
  }
}
