/** The session store: packet statistics wait in a pending batch and are applied
    by a timer, a full batch or any other operation. */
module SessionStore {
  import opened Sequences
  import opened Strings
  import opened Models

  const MAX_SESSION_BATCH_SIZE := 500
  const MAX_SESSIONS := 20

  // -- The unbatched step --------------------------------------------------------

  function ApplyPacketStats(session: Session, packet: Packet): Session {
    if packet.direction == Inbound then
      session.(bytesReceived := session.bytesReceived + packet.sizeBytes,
               packetsReceived := session.packetsReceived + 1.0)
    else
      session.(bytesSent := session.bytesSent + packet.sizeBytes,
               packetsSent := session.packetsSent + 1.0)
  }

  function CreateSession(
    connectionId: EntityId, endpointUrl: string, id: EntityId, name: string, startedAt: real): Session
  {
    Session(0.0, 0.0, None, None, connectionId, startedAt, None, endpointUrl, id, name, 0.0, 0.0, startedAt, Connecting)
  }

  function Credit(session: Session, packet: Packet): Session {
    if packet.sessionId == session.id then ApplyPacketStats(session, packet) else session
  }

  function CreditAll(session: Session, packets: seq<Packet>): (credited: Session)
    ensures credited.id == session.id
    decreases |packets|
  {
    if packets == [] then session else CreditAll(Credit(session, packets[0]), packets[1..])
  }

  function CreditEach(sessions: seq<Session>, packets: seq<Packet>): (credited: seq<Session>)
    ensures |credited| == |sessions|
    ensures forall i :: 0 <= i < |sessions| ==> credited[i] == CreditAll(sessions[i], packets)
  {
    if sessions == [] then [] else [CreditAll(sessions[0], packets)] + CreditEach(sessions[1..], packets)
  }

  datatype Op =
    | RecordPacket(packet: Packet)
    | RecordPackets(packets: seq<Packet>)
    | StartSession(started: Session)
    | ImportSession(imported: Session)
    | RemoveSession(removedId: EntityId)
    | RenameSession(renamedId: EntityId, name: string)
    | UpdateSessionStatus(id: EntityId, status: SessionStatus,
                          closeCode: Option<real>, closeReason: Option<string>, endedAt: real)
    | FlushPendingPacketStats
    | TimerFires

  function Without(sessions: seq<Session>, id: EntityId): seq<Session> {
    if sessions == [] then []
    else (if sessions[0].id != id then [sessions[0]] else []) + Without(sessions[1..], id)
  }

  function KeepTwenty(sessions: seq<Session>): seq<Session> {
    if |sessions| <= MAX_SESSIONS then sessions else sessions[..MAX_SESSIONS]
  }

  function Renamed(session: Session, id: EntityId, name: string): Session {
    if session.id == id then session.(name := if Trim(name) != "" then Trim(name) else session.name) else session
  }

  function WithStatus(session: Session, op: Op): Session
    requires op.UpdateSessionStatus?
  {
    if session.id != op.id then session
    else session.(
      closeCode := if op.closeCode.Some? then op.closeCode else session.closeCode,
      closeReason := if op.closeReason.Some? then op.closeReason else session.closeReason,
      endedAt := if op.status == Connected || op.status == Connecting then None else Some(op.endedAt),
      status := op.status)
  }

  function Edited(session: Session, op: Op): Session {
    match op
    case RenameSession(id, name) => Renamed(session, id, name)
    case UpdateSessionStatus(_, _, _, _, _) => WithStatus(session, op)
    case _ => session
  }

  function EditEach(sessions: seq<Session>, op: Op): seq<Session> {
    if sessions == [] then [] else [Edited(sessions[0], op)] + EditEach(sessions[1..], op)
  }

  /** The list operation itself, with no packet waiting. */
  function Edit(sessions: seq<Session>, op: Op): seq<Session> {
    match op
    case StartSession(session) => KeepTwenty([session] + sessions)
    case ImportSession(session) => KeepTwenty([session] + Without(sessions, session.id))
    case RemoveSession(id) => Without(sessions, id)
    case _ => EditEach(sessions, op)
  }

  function Recorded(op: Op): seq<Packet> {
    match op
    case RecordPacket(packet) => [packet]
    case RecordPackets(packets) => packets
    case _ => []
  }

  /** The unbatched store: every packet is credited at once. */
  function ImmediateStep(sessions: seq<Session>, op: Op): seq<Session> {
    Edit(CreditEach(sessions, Recorded(op)), op)
  }

  function ImmediateRun(sessions: seq<Session>, ops: seq<Op>): seq<Session>
    decreases |ops|
  {
    if ops == [] then sessions else ImmediateRun(ImmediateStep(sessions, ops[0]), ops[1..])
  }

  // -- The batched store -----------------------------------------------------------

  datatype Store = Store(sessions: seq<Session>, pending: seq<Packet>, timerArmed: bool)

  function Flush(s: Store): Store {
    Store(CreditEach(s.sessions, s.pending), [], false)
  }

  function Record(s: Store, packets: seq<Packet>): Store {
    var queued := s.(pending := s.pending + packets);
    if |queued.pending| >= MAX_SESSION_BATCH_SIZE then Flush(queued) else queued.(timerArmed := true)
  }

  function Step(s: Store, op: Op): Store {
    match op
    case RecordPacket(packet) => Record(s, [packet])
    case RecordPackets(packets) => if packets == [] then s else Record(s, packets)
    case TimerFires => if s.timerArmed then Flush(s) else s
    case FlushPendingPacketStats => Flush(s)
    case _ => var flushed := Flush(s); flushed.(sessions := Edit(flushed.sessions, op))
  }

  function Run(s: Store, ops: seq<Op>): Store
    decreases |ops|
  {
    if ops == [] then s else Run(Step(s, ops[0]), ops[1..])
  }

  class SessionStoreObject {
    var sessions: seq<Session>
    var pendingSessionPackets: seq<Packet>
    var sessionBatchTimer: bool

    function View(): Store
      reads this
    {
      Store(sessions, pendingSessionPackets, sessionBatchTimer)
    }

    constructor ()
      ensures View() == Store([], [], false)
    {
      sessions, pendingSessionPackets, sessionBatchTimer := [], [], false;
    }

    /** The nested loop of the flush: sessions outside, waiting packets inside. */
    method FlushPending()
      modifies this
      ensures View() == Step(old(View()), FlushPendingPacketStats)
    {
      sessionBatchTimer := false;
      if |pendingSessionPackets| == 0 {
        NothingToCredit(sessions);
        pendingSessionPackets := [];
        return;
      }
      var packets := pendingSessionPackets;
      pendingSessionPackets := [];
      var credited: seq<Session> := [];
      for i := 0 to |sessions|
        invariant sessions == old(sessions) && pendingSessionPackets == [] && !sessionBatchTimer
        invariant |credited| == i
        invariant forall k :: 0 <= k < i ==> credited[k] == CreditAll(sessions[k], packets)
      {
        var nextSession := sessions[i];
        for j := 0 to |packets|
          invariant nextSession.id == sessions[i].id
          invariant CreditAll(nextSession, packets[j..]) == CreditAll(sessions[i], packets)
        {
          assert packets[j..][1..] == packets[j + 1..];
          if packets[j].sessionId == sessions[i].id {
            nextSession := ApplyPacketStats(nextSession, packets[j]);
          }
        }
        credited := credited + [nextSession];
      }
      assert credited == CreditEach(sessions, packets);
      sessions := credited;
    }

    method FireTimer()
      requires sessionBatchTimer
      modifies this
      ensures View() == Step(old(View()), TimerFires)
    {
      sessionBatchTimer := false;
      FlushPending();
    }

    method ScheduleSessionFlush()
      modifies this`sessionBatchTimer
      ensures sessionBatchTimer
    {
      if sessionBatchTimer {
        return;
      }
      sessionBatchTimer := true;
    }

    method RecordMany(packets: seq<Packet>)
      modifies this
      ensures View() == Step(old(View()), RecordPackets(packets))
    {
      if |packets| == 0 {
        return;
      }
      pendingSessionPackets := pendingSessionPackets + packets;
      if |pendingSessionPackets| >= MAX_SESSION_BATCH_SIZE {
        FlushPending();
        return;
      }
      ScheduleSessionFlush();
    }

    method RecordOne(packet: Packet)
      modifies this
      ensures View() == Step(old(View()), RecordPacket(packet))
    {
      pendingSessionPackets := pendingSessionPackets + [packet];
      if |pendingSessionPackets| >= MAX_SESSION_BATCH_SIZE {
        FlushPending();
        return;
      }
      ScheduleSessionFlush();
    }

    method Start(connectionId: EntityId, endpointUrl: string, freshId: EntityId, name: string, startedAt: real)
      returns (session: Session)
      modifies this
      ensures session == CreateSession(connectionId, endpointUrl, freshId, name, startedAt)
      ensures View() == Step(old(View()), StartSession(session))
    {
      FlushPending();
      session := CreateSession(connectionId, endpointUrl, freshId, name, startedAt);
      sessions := KeepTwenty([session] + sessions);
    }

    method Import(session: Session)
      modifies this
      ensures View() == Step(old(View()), ImportSession(session))
    {
      FlushPending();
      sessions := KeepTwenty([session] + Without(sessions, session.id));
    }

    method Remove(id: EntityId)
      modifies this
      ensures View() == Step(old(View()), RemoveSession(id))
    {
      FlushPending();
      sessions := Without(sessions, id);
    }

    /** `renameSession` and `updateSessionStatus`: flush, then map over the list. */
    method EditSession(op: Op)
      requires op.RenameSession? || op.UpdateSessionStatus?
      modifies this
      ensures View() == Step(old(View()), op)
    {
      FlushPending();
      sessions := EditEach(sessions, op);
    }
  }

  lemma NothingToCredit(sessions: seq<Session>)
    ensures CreditEach(sessions, []) == sessions
  {
  }

  // -- Batched statistics refine immediate ones --------------------------------------

  lemma {:induction false} CreditAllAppend(session: Session, first: seq<Packet>, second: seq<Packet>)
    ensures CreditAll(session, first + second) == CreditAll(CreditAll(session, first), second)
    decreases |first|
  {
    if first == [] {
      assert first + second == second;
    } else {
      assert (first + second)[1..] == first[1..] + second;
      CreditAllAppend(Credit(session, first[0]), first[1..], second);
    }
  }

  lemma CreditEachAppend(sessions: seq<Session>, first: seq<Packet>, second: seq<Packet>)
    ensures CreditEach(sessions, first + second) == CreditEach(CreditEach(sessions, first), second)
  {
    forall i | 0 <= i < |sessions|
      ensures CreditEach(sessions, first + second)[i] == CreditEach(CreditEach(sessions, first), second)[i]
    {
      CreditAllAppend(sessions[i], first, second);
    }
  }

  lemma {:induction false} EditEachIdentity(sessions: seq<Session>, op: Op)
    requires !op.RenameSession? && !op.UpdateSessionStatus?
    ensures EditEach(sessions, op) == sessions
  {
    if sessions != [] {
      EditEachIdentity(sessions[1..], op);
    }
  }

  lemma StepRefines(s: Store, op: Op)
    ensures Flush(Step(s, op)).sessions == ImmediateStep(Flush(s).sessions, op)
  {
    var now := Flush(s).sessions;
    NothingToCredit(now);
    CreditEachAppend(s.sessions, s.pending, Recorded(op));
    match op
    case RecordPacket(packet) =>
      NothingToCredit(CreditEach(s.sessions, s.pending + [packet]));
      EditEachIdentity(CreditEach(now, [packet]), op);
    case RecordPackets(packets) =>
      NothingToCredit(CreditEach(s.sessions, s.pending + packets));
      EditEachIdentity(CreditEach(now, packets), op);
    case TimerFires => EditEachIdentity(now, op);
    case FlushPendingPacketStats => EditEachIdentity(now, op);
    case _ => NothingToCredit(Edit(now, op));
  }

  /** For every trace, flushing the batched store gives the sessions the unbatched
      store has. */
  lemma {:induction false} BatchedRefinesImmediate(s: Store, ops: seq<Op>)
    ensures Flush(Run(s, ops)).sessions == ImmediateRun(Flush(s).sessions, ops)
    decreases |ops|
  {
    if ops != [] {
      StepRefines(s, ops[0]);
      BatchedRefinesImmediate(Step(s, ops[0]), ops[1..]);
    }
  }

  predicate TimerMatchesBatch(s: Store) {
    (s.pending != [] <==> s.timerArmed) && |s.pending| < MAX_SESSION_BATCH_SIZE
  }

  lemma {:induction false} RunKeepsTimerMatchesBatch(s: Store, ops: seq<Op>)
    requires TimerMatchesBatch(s)
    ensures TimerMatchesBatch(Run(s, ops))
    decreases |ops|
  {
    if ops != [] {
      RunKeepsTimerMatchesBatch(Step(s, ops[0]), ops[1..]);
    }
  }

  // -- Counters are sums -------------------------------------------------------------

  datatype Counters = Counters(bytesReceived: real, bytesSent: real, packetsReceived: real, packetsSent: real)

  function CountersOf(session: Session): Counters {
    Counters(session.bytesReceived, session.bytesSent, session.packetsReceived, session.packetsSent)
  }

  function Plus(a: Counters, b: Counters): Counters {
    Counters(a.bytesReceived + b.bytesReceived, a.bytesSent + b.bytesSent,
             a.packetsReceived + b.packetsReceived, a.packetsSent + b.packetsSent)
  }

  const NOTHING := Counters(0.0, 0.0, 0.0, 0.0)

  function Share(p: Packet, id: EntityId): Counters {
    if p.sessionId != id then NOTHING
    else if p.direction == Inbound then Counters(p.sizeBytes, 0.0, 1.0, 0.0)
    else Counters(0.0, p.sizeBytes, 0.0, 1.0)
  }

  function Totals(packets: seq<Packet>, id: EntityId): Counters {
    if packets == [] then NOTHING else Plus(Share(packets[0], id), Totals(packets[1..], id))
  }

  lemma PlusAssociates(a: Counters, b: Counters, c: Counters)
    ensures Plus(Plus(a, b), c) == Plus(a, Plus(b, c))
  {
  }

  lemma CreditShare(session: Session, packet: Packet)
    ensures CountersOf(Credit(session, packet)) == Plus(CountersOf(session), Share(packet, session.id))
    ensures Credit(session, packet).id == session.id
  {
  }

  function AllRecorded(ops: seq<Op>): seq<Packet> {
    if ops == [] then [] else Recorded(ops[0]) + AllRecorded(ops[1..])
  }

  lemma {:induction false} TotalsAppend(first: seq<Packet>, second: seq<Packet>, id: EntityId)
    ensures Totals(first + second, id) == Plus(Totals(first, id), Totals(second, id))
  {
    if first == [] {
      assert first + second == second;
    } else {
      assert (first + second)[1..] == first[1..] + second;
      TotalsAppend(first[1..], second, id);
      PlusAssociates(Share(first[0], id), Totals(first[1..], id), Totals(second, id));
    }
  }

  lemma {:induction false} CreditAllTotals(session: Session, packets: seq<Packet>)
    ensures CountersOf(CreditAll(session, packets)) == Plus(CountersOf(session), Totals(packets, session.id))
    decreases |packets|
  {
    if packets != [] {
      CreditShare(session, packets[0]);
      CreditAllTotals(Credit(session, packets[0]), packets[1..]);
      PlusAssociates(CountersOf(session), Share(packets[0], session.id), Totals(packets[1..], session.id));
    }
  }

  /** Every session in `sessions` that goes by `id` shows these counters. */
  ghost predicate Shows(sessions: seq<Session>, id: EntityId, counters: Counters) {
    forall s :: s in sessions && s.id == id ==> CountersOf(s) == counters
  }

  predicate Adds(op: Op, id: EntityId) {
    || (op.StartSession? && op.started.id == id)
    || (op.ImportSession? && op.imported.id == id)
  }

  lemma {:induction false} WithoutMembers(sessions: seq<Session>, id: EntityId)
    ensures forall s :: s in Without(sessions, id) <==> s in sessions && s.id != id
  {
    if sessions != [] {
      WithoutMembers(sessions[1..], id);
    }
  }

  lemma {:induction false} EditEachShows(sessions: seq<Session>, op: Op, id: EntityId, counters: Counters)
    requires Shows(sessions, id, counters)
    ensures Shows(EditEach(sessions, op), id, counters)
  {
    if sessions != [] {
      EditEachShows(sessions[1..], op, id, counters);
      assert sessions[0] in sessions;
    }
  }

  lemma EditShows(sessions: seq<Session>, op: Op, id: EntityId, counters: Counters)
    requires Shows(sessions, id, counters) && !Adds(op, id)
    ensures Shows(Edit(sessions, op), id, counters)
  {
    match op
    case StartSession(session) =>
    case ImportSession(session) => WithoutMembers(sessions, session.id);
    case RemoveSession(removed) => WithoutMembers(sessions, removed);
    case _ => EditEachShows(sessions, op, id, counters);
  }

  lemma ImmediateStepShows(sessions: seq<Session>, op: Op, id: EntityId, counters: Counters)
    requires Shows(sessions, id, counters) && !Adds(op, id)
    ensures Shows(ImmediateStep(sessions, op), id, Plus(counters, Totals(Recorded(op), id)))
  {
    var credited, expected := CreditEach(sessions, Recorded(op)), Plus(counters, Totals(Recorded(op), id));
    forall s | s in credited && s.id == id ensures CountersOf(s) == expected {
      var i :| 0 <= i < |credited| && credited[i] == s;
      CreditAllTotals(sessions[i], Recorded(op));
      assert sessions[i] in sessions;
    }
    EditShows(credited, op, id, expected);
  }

  lemma {:induction false} ImmediateRunShows(sessions: seq<Session>, ops: seq<Op>, id: EntityId, counters: Counters)
    requires Shows(sessions, id, counters)
    requires forall op :: op in ops ==> !Adds(op, id)
    ensures Shows(ImmediateRun(sessions, ops), id, Plus(counters, Totals(AllRecorded(ops), id)))
    decreases |ops|
  {
    if ops != [] {
      assert ops[0] in ops;
      ImmediateStepShows(sessions, ops[0], id, counters);
      ImmediateRunShows(ImmediateStep(sessions, ops[0]), ops[1..], id, Plus(counters, Totals(Recorded(ops[0]), id)));
      TotalsAppend(Recorded(ops[0]), AllRecorded(ops[1..]), id);
      PlusAssociates(counters, Totals(Recorded(ops[0]), id), Totals(AllRecorded(ops[1..]), id));
    }
  }

  /** Each retained session's counters equal the ones it was added with plus the
      packets recorded for it since, whatever else happened in between. */
  lemma CountersSinceAdded(s: Store, add: Op, ops: seq<Op>)
    requires add.StartSession? || add.ImportSession?
    requires add.StartSession? ==> forall other :: other in s.sessions ==> other.id != add.started.id
    requires var id := if add.StartSession? then add.started.id else add.imported.id;
             forall op :: op in ops ==> !Adds(op, id)
    ensures var added := if add.StartSession? then add.started else add.imported;
            Shows(Flush(Run(Step(s, add), ops)).sessions, added.id,
                  Plus(CountersOf(added), Totals(AllRecorded(ops), added.id)))
  {
    var added := if add.StartSession? then add.started else add.imported;
    var after := Step(s, add);
    WithoutMembers(Flush(s).sessions, added.id);
    assert forall other :: other in after.sessions && other.id == added.id ==> other == added;
    NothingToCredit(after.sessions);
    BatchedRefinesImmediate(after, ops);
    ImmediateRunShows(after.sessions, ops, added.id, CountersOf(added));
  }
}
