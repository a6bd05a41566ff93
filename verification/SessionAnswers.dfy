/** What the session store shows of each session after any run: which sessions it keeps,
    and for each its status, end, close details and name. */
module SessionAnswers {
  import opened Sequences
  import opened Strings
  import opened Models
  import opened SessionStore

  // -- What a session was last told ---------------------------------------------------------

  datatype Told = Told(
    status: SessionStatus, endedAt: Option<real>, closeCode: Option<real>, closeReason: Option<string>, name: string)

  function ToldOf(session: Session): Told {
    Told(session.status, session.endedAt, session.closeCode, session.closeReason, session.name)
  }

  /** A session is over when it is closed or failed. */
  predicate IsOver(status: SessionStatus) { status == Closed || status == SessionStatus.Error }

  /** The last status stands, with an end iff it is over; the last close code and reason
      given and the last name that is not blank stand. */
  function Tell(told: Told, op: Op, id: EntityId): Told {
    match op
    case RenameSession(renamed, name) =>
      if renamed != id || Trim(name) == "" then told else told.(name := Trim(name))
    case UpdateSessionStatus(updated, status, closeCode, closeReason, endedAt) =>
      if updated != id then told
      else Told(status, if IsOver(status) then Some(endedAt) else None,
                if closeCode == None then told.closeCode else closeCode,
                if closeReason == None then told.closeReason else closeReason, told.name)
    case _ => told
  }

  function TellAll(told: Told, ops: seq<Op>, id: EntityId): Told
    decreases |ops|
  {
    if ops == [] then told else TellAll(Tell(told, ops[0], id), ops[1..], id)
  }

  /** What never changes about a session. */
  predicate SameOrigin(a: Session, b: Session) {
    a.id == b.id && a.connectionId == b.connectionId && a.createdAt == b.createdAt
    && a.endpointUrl == b.endpointUrl && a.startedAt == b.startedAt
  }

  /** Every session in the list that goes by the id of `added` is that one, told this. */
  ghost predicate ShowsTold(sessions: seq<Session>, added: Session, told: Told) {
    forall s :: s in sessions && s.id == added.id ==> ToldOf(s) == told && SameOrigin(s, added)
  }

  lemma {:induction false} CreditKeepsTold(session: Session, packets: seq<Packet>)
    ensures ToldOf(CreditAll(session, packets)) == ToldOf(session)
    ensures SameOrigin(CreditAll(session, packets), session)
    decreases |packets|
  {
    if packets != [] {
      CreditKeepsTold(Credit(session, packets[0]), packets[1..]);
    }
  }

  lemma EditedIsTold(session: Session, op: Op)
    ensures ToldOf(Edited(session, op)) == Tell(ToldOf(session), op, session.id)
    ensures SameOrigin(Edited(session, op), session)
    ensures CountersOf(Edited(session, op)) == CountersOf(session)
  {
  }

  lemma {:induction false} EditEachAt(sessions: seq<Session>, op: Op, i: nat)
    requires i < |sessions|
    ensures |EditEach(sessions, op)| == |sessions| && EditEach(sessions, op)[i] == Edited(sessions[i], op)
  {
    if i > 0 {
      EditEachAt(sessions[1..], op, i - 1);
    } else if |sessions| > 1 {
      EditEachAt(sessions[1..], op, 0);
    }
  }

  lemma EditShowsTold(sessions: seq<Session>, op: Op, added: Session, told: Told)
    requires ShowsTold(sessions, added, told) && !Adds(op, added.id)
    ensures ShowsTold(Edit(sessions, op), added, Tell(told, op, added.id))
  {
    match op
    case StartSession(session) =>
    case ImportSession(session) => WithoutMembers(sessions, session.id);
    case RemoveSession(removed) => WithoutMembers(sessions, removed);
    case _ =>
      var edited := EditEach(sessions, op);
      EditEachLength(sessions, op);
      forall s | s in edited && s.id == added.id
        ensures ToldOf(s) == Tell(told, op, added.id) && SameOrigin(s, added)
      {
        var i :| 0 <= i < |edited| && edited[i] == s;
        EditEachAt(sessions, op, i);
        assert sessions[i] in sessions;
        EditedIsTold(sessions[i], op);
      }
  }

  lemma {:induction false} EditEachLength(sessions: seq<Session>, op: Op)
    ensures |EditEach(sessions, op)| == |sessions|
  {
    if sessions != [] {
      EditEachLength(sessions[1..], op);
    }
  }

  lemma ImmediateShowsTold(sessions: seq<Session>, op: Op, added: Session, told: Told)
    requires ShowsTold(sessions, added, told) && !Adds(op, added.id)
    ensures ShowsTold(ImmediateStep(sessions, op), added, Tell(told, op, added.id))
  {
    var credited := CreditEach(sessions, Recorded(op));
    forall s | s in credited && s.id == added.id ensures ToldOf(s) == told && SameOrigin(s, added) {
      var i :| 0 <= i < |credited| && credited[i] == s;
      CreditKeepsTold(sessions[i], Recorded(op));
      assert sessions[i] in sessions;
    }
    EditShowsTold(credited, op, added, told);
  }

  lemma {:induction false} RunShowsTold(sessions: seq<Session>, ops: seq<Op>, added: Session, told: Told)
    requires ShowsTold(sessions, added, told)
    requires forall op :: op in ops ==> !Adds(op, added.id)
    ensures ShowsTold(ImmediateRun(sessions, ops), added, TellAll(told, ops, added.id))
    decreases |ops|
  {
    if ops != [] {
      assert ops[0] in ops;
      ImmediateShowsTold(sessions, ops[0], added, told);
      RunShowsTold(ImmediateStep(sessions, ops[0]), ops[1..], added, Tell(told, ops[0], added.id));
    }
  }

  /** After any run a session shows what it was last told since it was added, whatever
      happened to the others; where it came from never changes. */
  lemma ToldSinceAdded(s: Store, add: Op, ops: seq<Op>)
    requires add.StartSession? || add.ImportSession?
    requires add.StartSession? ==> forall other :: other in s.sessions ==> other.id != add.started.id
    requires var id := if add.StartSession? then add.started.id else add.imported.id;
             forall op :: op in ops ==> !Adds(op, id)
    ensures var added := if add.StartSession? then add.started else add.imported;
            ShowsTold(Flush(Run(Step(s, add), ops)).sessions, added, TellAll(ToldOf(added), ops, added.id))
  {
    var added := if add.StartSession? then add.started else add.imported;
    var after := Step(s, add);
    WithoutMembers(Flush(s).sessions, added.id);
    assert forall other :: other in after.sessions && other.id == added.id ==> other == added;
    NothingToCredit(after.sessions);
    BatchedRefinesImmediate(after, ops);
    RunShowsTold(after.sessions, ops, added, ToldOf(added));
  }

  // -- The list -------------------------------------------------------------------------------

  /** At most twenty sessions, each with an end iff it is over. */
  ghost predicate Tidy(sessions: seq<Session>) {
    |sessions| <= 20 && forall s :: s in sessions ==> (s.endedAt.Some? <==> IsOver(s.status))
  }

  /** Sessions come in as they are created, or over and with an end. */
  predicate ComesInTidy(op: Op) {
    && (op.StartSession? ==> (op.started.endedAt.Some? <==> IsOver(op.started.status)))
    && (op.ImportSession? ==> (op.imported.endedAt.Some? <==> IsOver(op.imported.status)))
  }

  lemma CreatedIsTidy(connectionId: EntityId, endpointUrl: string, id: EntityId, name: string, startedAt: real)
    ensures var session := CreateSession(connectionId, endpointUrl, id, name, startedAt);
            && session.id == id && session.connectionId == connectionId && session.endpointUrl == endpointUrl
            && session.name == name && session.startedAt == startedAt == session.createdAt
            && session.status == Connecting && session.endedAt == None
            && session.closeCode == None && session.closeReason == None && CountersOf(session) == NOTHING
            && ComesInTidy(StartSession(session))
  {
  }

  lemma {:induction false} WithoutShortens(sessions: seq<Session>, id: EntityId)
    ensures |Without(sessions, id)| <= |sessions|
  {
    if sessions != [] {
      WithoutShortens(sessions[1..], id);
    }
  }

  lemma EditKeepsTidy(sessions: seq<Session>, op: Op)
    requires Tidy(sessions) && ComesInTidy(op)
    ensures Tidy(Edit(sessions, op))
  {
    match op
    case StartSession(_) =>
    case ImportSession(session) =>
      WithoutMembers(sessions, session.id);
    case RemoveSession(removed) =>
      WithoutMembers(sessions, removed);
      WithoutShortens(sessions, removed);
    case _ =>
      var edited := EditEach(sessions, op);
      EditEachLength(sessions, op);
      forall s | s in edited ensures s.endedAt.Some? <==> IsOver(s.status) {
        var i :| 0 <= i < |edited| && edited[i] == s;
        EditEachAt(sessions, op, i);
        assert sessions[i] in sessions;
      }
  }

  lemma FlushKeepsTidy(s: Store)
    requires Tidy(s.sessions)
    ensures Tidy(Flush(s).sessions)
  {
    var credited := CreditEach(s.sessions, s.pending);
    forall x | x in credited ensures x.endedAt.Some? <==> IsOver(x.status) {
      var i :| 0 <= i < |credited| && credited[i] == x;
      CreditKeepsTold(s.sessions[i], s.pending);
      assert s.sessions[i] in s.sessions;
    }
  }

  lemma StepKeepsTidy(s: Store, op: Op)
    requires Tidy(s.sessions) && ComesInTidy(op)
    ensures Tidy(Step(s, op).sessions)
  {
    FlushKeepsTidy(s);
    match op
    case RecordPacket(packet) => FlushKeepsTidy(s.(pending := s.pending + [packet]));
    case RecordPackets(packets) => FlushKeepsTidy(s.(pending := s.pending + packets));
    case TimerFires =>
    case FlushPendingPacketStats =>
    case _ => EditKeepsTidy(Flush(s).sessions, op);
  }

  /** In every run: at most twenty sessions, and one has an end exactly when it is closed
      or failed. */
  lemma {:induction false} RunKeepsTidy(s: Store, ops: seq<Op>)
    requires Tidy(s.sessions)
    requires forall op :: op in ops ==> ComesInTidy(op)
    ensures Tidy(Run(s, ops).sessions)
    decreases |ops|
  {
    if ops != [] {
      assert ops[0] in ops;
      StepKeepsTidy(s, ops[0]);
      RunKeepsTidy(Step(s, ops[0]), ops[1..]);
    }
  }

  lemma {:induction false} WithoutOne(sessions: seq<Session>, id: EntityId, i: nat)
    requires i < |sessions| && sessions[i].id == id
    requires forall j :: 0 <= j < |sessions| && j != i ==> sessions[j].id != id
    ensures Without(sessions, id) == sessions[..i] + sessions[i + 1..]
  {
    if i == 0 {
      WithoutNone(sessions[1..], id);
    } else {
      WithoutOne(sessions[1..], id, i - 1);
      assert sessions[..i] == [sessions[0]] + sessions[1..][..i - 1];
    }
  }

  lemma {:induction false} WithoutNone(sessions: seq<Session>, id: EntityId)
    requires forall s :: s in sessions ==> s.id != id
    ensures Without(sessions, id) == sessions
  {
    if sessions != [] {
      WithoutNone(sessions[1..], id);
    }
  }

  ghost predicate IdsDiffer(sessions: seq<Session>) {
    forall i, j :: 0 <= i < j < |sessions| ==> sessions[i].id != sessions[j].id
  }

  predicate HasId(sessions: seq<Session>, id: EntityId) { exists i :: 0 <= i < |sessions| && sessions[i].id == id }

  function TakeTwenty(sessions: seq<Session>): seq<Session> {
    if |sessions| > 20 then sessions[..20] else sessions
  }

  /** A new session goes to the front and the twenty-first falls off; an imported one
      first takes the place of its namesake; removing takes out just the one. */
  lemma ListAnswers(s: Store, session: Session, id: EntityId, i: nat)
    requires var sessions := Step(s, FlushPendingPacketStats).sessions;
             && IdsDiffer(sessions)
             && (if HasId(sessions, id) then i < |sessions| && sessions[i].id == id else i == |sessions|)
    requires session.id == id
    ensures var sessions := Step(s, FlushPendingPacketStats).sessions;
            var rest := if i < |sessions| then sessions[..i] + sessions[i + 1..] else sessions;
            && Step(s, StartSession(session)).sessions == TakeTwenty([session] + sessions)
            && Step(s, ImportSession(session)).sessions == TakeTwenty([session] + rest)
            && Step(s, RemoveSession(id)).sessions == rest
  {
    var sessions := Step(s, FlushPendingPacketStats).sessions;
    if i < |sessions| {
      WithoutOne(sessions, id, i);
    } else {
      WithoutNone(sessions, id);
    }
  }

  /** Packets wait until 500 of them do. */
  lemma RecordAnswers(s: Store, packets: seq<Packet>)
    requires packets != []
    ensures var t := Step(s, RecordPackets(packets));
            if |s.pending| + |packets| < 500
            then t == Store(s.sessions, s.pending + packets, true)
            else t.pending == [] && !t.timerArmed
                 && t.sessions == Flush(Store(s.sessions, s.pending + packets, false)).sessions
  {
  }
}
