/** Turning a file that was read into a session of its own, under fresh ids. */
module SessionImport {
  import opened Sequences
  import opened Models
  import opened SessionFile
  import opened SessionStore
  import opened PacketRelationships
  import opened RelationshipRenaming

  datatype Snapshot = Snapshot(packets: seq<Packet>, session: Session)

  /** `Date.parse`, when it yields a finite number. */
  type DateParser = string -> Option<real>

  // -- The snapshot --------------------------------------------------------------------------

  /** `new Map(packets.map(packet => [packet.id, createEntityId()]))`, where `ids` are
      the ids created: a repeated packet id keeps the last one. */
  function IdMap(packets: seq<Packet>, ids: seq<EntityId>): map<EntityId, EntityId>
    requires |ids| == |packets|
    decreases |packets|
  {
    if packets == [] then map[]
    else IdMap(packets[..|packets| - 1], ids[..|ids| - 1])[packets[|packets| - 1].id := ids[|ids| - 1]]
  }

  /** The session id, the connection id and the packet ids are created in that order. */
  function ImportOf(packets: seq<Packet>, ids: seq<EntityId>): Import
    requires |ids| == |packets| + 2
  {
    Import(IdMap(SortNewestFirst(packets), ids[2..]), ids[1], ids[0])
  }

  function NormalizeImportedStatus(status: SessionStatus): SessionStatus {
    if status == Connected || status == Connecting then Closed else status
  }

  function AddPacket(stats: Counters, packet: Packet): Counters {
    if packet.direction == Inbound then
      stats.(bytesReceived := stats.bytesReceived + packet.sizeBytes, packetsReceived := stats.packetsReceived + 1.0)
    else
      stats.(bytesSent := stats.bytesSent + packet.sizeBytes, packetsSent := stats.packetsSent + 1.0)
  }

  /** `packets.reduce(…)`. */
  function PacketStats(packets: seq<Packet>): Counters {
    if packets == [] then Counters(0.0, 0.0, 0.0, 0.0)
    else AddPacket(PacketStats(packets[..|packets| - 1]), packets[|packets| - 1])
  }

  function Earliest(packets: seq<Packet>): Option<real> {
    if packets == [] then None else Some(Min(Map(packets, Timestamp)))
  }

  function Latest(packets: seq<Packet>): Option<real> {
    if packets == [] then None else Some(Max(Map(packets, Timestamp)))
  }

  /** `first ?? second`. */
  function Or<T>(first: Option<T>, second: T): T { if first.Some? then first.value else second }

  function CreateImportedSessionSnapshot(
    file: File, importedAt: real, ids: seq<EntityId>, parseDate: DateParser): Snapshot
    requires |ids| == |file.packets| + 2
  {
    var sorted, imp := SortNewestFirst(file.packets), ImportOf(file.packets, ids);
    var packets, stats := ImportedPackets(file.packets, imp), PacketStats(ImportedPackets(file.packets, imp));
    var source := file.session;
    var status := NormalizeImportedStatus(if source.Some? then source.value.status else Closed);
    var startedAt := if source.Some? then source.value.startedAt
                     else Or(Earliest(sorted), Or(parseDate(file.metadata.createdAt), importedAt));
    var sourceEnd := if source.Some? then source.value.endedAt else None;
    var endedAt := if status == Closed || status == SessionStatus.Error
                   then Some(Or(sourceEnd, Or(Latest(sorted), importedAt)))
                   else sourceEnd;
    var wasLive := source.Some? && (source.value.status == Connected || source.value.status == Connecting);
    Snapshot(packets, Session(
      stats.bytesReceived, stats.bytesSent,
      if source.Some? then source.value.closeCode else None,
      if source.Some? && source.value.closeReason.Some? then source.value.closeReason
      else if wasLive then Some("Imported session snapshot") else None,
      imp.connectionId,
      Or(parseDate(file.metadata.createdAt), if source.Some? then source.value.createdAt else startedAt),
      endedAt,
      if source.Some? then source.value.endpointUrl else Or(file.metadata.endpointUrl, "import://socketlens/session"),
      imp.sessionId, file.metadata.sessionName, stats.packetsReceived, stats.packetsSent, startedAt, status))
  }

  // -- Fresh ids --------------------------------------------------------------------------------

  /** Ids as `createEntityId` makes them: never used before, and never empty. */
  ghost predicate AreNew(packets: seq<Packet>, ids: seq<EntityId>) {
    NoDuplicates(ids) && forall id :: id in ids ==> id != "" && !Occurs(packets, id)
  }

  ghost predicate IsEntry(packets: seq<Packet>, ids: seq<EntityId>, a: EntityId, k: nat)
    requires |ids| == |packets|
  {
    k < |packets| && packets[k].id == a && a in IdMap(packets, ids) && IdMap(packets, ids)[a] == ids[k]
  }

  lemma {:induction false} EveryPacketIsMapped(packets: seq<Packet>, ids: seq<EntityId>, p: Packet)
    requires |ids| == |packets| && p in packets
    ensures p.id in IdMap(packets, ids)
    decreases |packets|
  {
    var init := packets[..|packets| - 1];
    if p in init {
      EveryPacketIsMapped(init, ids[..|ids| - 1], p);
    }
  }

  lemma {:induction false} EntryOf(packets: seq<Packet>, ids: seq<EntityId>, a: EntityId) returns (k: nat)
    requires |ids| == |packets| && a in IdMap(packets, ids)
    ensures IsEntry(packets, ids, a, k)
    decreases |packets|
  {
    if packets[|packets| - 1].id == a {
      k := |packets| - 1;
    } else {
      k := EntryOf(packets[..|packets| - 1], ids[..|ids| - 1], a);
    }
  }

  lemma NewIdsAreFresh(packets: seq<Packet>, ids: seq<EntityId>)
    requires |ids| == |packets| + 2 && AreNew(packets, ids)
    ensures FreshFor(packets, ImportOf(packets, ids))
  {
    var sorted, packetIds := SortNewestFirst(packets), ids[2..];
    var newIds := IdMap(sorted, packetIds);
    SortPermutes(packets, Newest);
    forall p | p in packets ensures p.id in newIds {
      EveryPacketIsMapped(sorted, packetIds, p);
    }
    forall a, b | a in newIds && b in newIds && newIds[a] == newIds[b] ensures a == b {
      var j := EntryOf(sorted, packetIds, a);
      var k := EntryOf(sorted, packetIds, b);
      assert ids[j + 2] == ids[k + 2];
    }
    forall a | a in newIds ensures newIds[a] != "" && !Occurs(packets, newIds[a]) {
      var k := EntryOf(sorted, packetIds, a);
      assert newIds[a] == ids[k + 2] && ids[k + 2] in ids;
    }
  }

  // -- What an import is -------------------------------------------------------------------------

  lemma AddedShare(stats: Counters, p: Packet)
    ensures AddPacket(stats, p) == Plus(stats, Share(p, p.sessionId))
  {
  }

  lemma {:induction false} StatsAreTotals(packets: seq<Packet>, session: EntityId)
    requires forall p :: p in packets ==> p.sessionId == session
    ensures PacketStats(packets) == Totals(packets, session)
    decreases |packets|
  {
    if packets != [] {
      var init, last := packets[..|packets| - 1], packets[|packets| - 1];
      assert packets == init + [last];
      StatsAreTotals(init, session);
      TotalsAppend(init, [last], session);
      AddedShare(PacketStats(init), last);
      assert Totals([last], session) == Plus(Share(last, session), NOTHING);
    }
  }

  lemma ImportedPacketsBelong(packets: seq<Packet>, imp: Import)
    ensures forall p :: p in ImportedPackets(packets, imp) ==>
              p.sessionId == imp.sessionId && p.connectionId == imp.connectionId
    ensures SortedBy(ImportedPackets(packets, imp), Newest) && |ImportedPackets(packets, imp)| == |packets|
  {
    var sorted, imported := SortNewestFirst(packets), ImportedPackets(packets, imp);
    SortSorts(packets, Newest);
    forall p | p in imported ensures p.sessionId == imp.sessionId && p.connectionId == imp.connectionId {
      var i :| 0 <= i < |imported| && imported[i] == p;
      assert p == RenamePacket(imp)(sorted[i]);
    }
    forall i, j | 0 <= i < j < |imported| ensures Newest(imported[i]) <= Newest(imported[j]) {
      assert imported[i] == RenamePacket(imp)(sorted[i]) && imported[j] == RenamePacket(imp)(sorted[j]);
      assert Newest(sorted[i]) <= Newest(sorted[j]);
    }
  }

  /** An imported session is over, its packets are its own, newest first, and its
      counters are what recording those packets into it from nothing gives. */
  lemma ImportedSessionIsConsistent(file: File, importedAt: real, ids: seq<EntityId>, parseDate: DateParser)
    requires |ids| == |file.packets| + 2
    ensures var snapshot := CreateImportedSessionSnapshot(file, importedAt, ids, parseDate);
            var session := snapshot.session;
            && session.id == ids[0] && session.connectionId == ids[1]
            && (session.status == Closed || session.status == SessionStatus.Error) && session.endedAt.Some?
            && |snapshot.packets| == |file.packets| && SortedBy(snapshot.packets, Newest)
            && (forall p :: p in snapshot.packets ==>
                  p.sessionId == session.id && p.connectionId == session.connectionId)
            && CountersOf(session)
               == CountersOf(CreditAll(CreateSession(session.connectionId, session.endpointUrl, session.id,
                                                     session.name, session.startedAt), snapshot.packets))
  {
    var snapshot := CreateImportedSessionSnapshot(file, importedAt, ids, parseDate);
    var session := snapshot.session;
    ImportedPacketsBelong(file.packets, ImportOf(file.packets, ids));
    StatsAreTotals(snapshot.packets, session.id);
    var empty := CreateSession(session.connectionId, session.endpointUrl, session.id, session.name, session.startedAt);
    CreditAllTotals(empty, snapshot.packets);
  }

  lemma TimesOf(packets: seq<Packet>)
    requires packets != []
    ensures Earliest(packets).Some? && Latest(packets).Some?
    ensures forall p :: p in packets ==> Earliest(packets).value <= p.timestamp <= Latest(packets).value
    ensures exists p :: p in packets && p.timestamp == Earliest(packets).value
    ensures exists p :: p in packets && p.timestamp == Latest(packets).value
  {
    var times := Map(packets, Timestamp);
    forall p | p in packets ensures Earliest(packets).value <= p.timestamp <= Latest(packets).value {
      var i :| 0 <= i < |packets| && packets[i] == p;
      assert times[i] == p.timestamp && times[i] in times;
    }
    var i :| 0 <= i < |times| && times[i] == Earliest(packets).value;
    var j :| 0 <= j < |times| && times[j] == Latest(packets).value;
    assert packets[i] in packets && packets[j] in packets;
  }

  /** The session says what the file's session said, but that it is over. */
  predicate SaysWhatTheFileSays(imported: Session, source: Session) {
    && imported.startedAt == source.startedAt && imported.endpointUrl == source.endpointUrl
    && imported.closeCode == source.closeCode
    && (source.endedAt.Some? ==> imported.endedAt == source.endedAt)
    && (source.closeReason.Some? ==> imported.closeReason == source.closeReason)
    && match source.status
       case Closed => imported.status == Closed && imported.closeReason == source.closeReason
       case Error => imported.status == SessionStatus.Error && imported.closeReason == source.closeReason
       case _ => imported.status == Closed
                 && (source.closeReason.None? ==> imported.closeReason == Some("Imported session snapshot"))
  }

  /** Without a session in the file, it spans the packets. */
  ghost predicate SpansThePackets(imported: Session, file: File) {
    && imported.status == Closed && imported.closeCode == None && imported.closeReason == None && imported.endedAt.Some?
    && (forall p :: p in file.packets ==> imported.startedAt <= p.timestamp <= imported.endedAt.value)
    && (file.packets != [] ==>
          && (exists p :: p in file.packets && p.timestamp == imported.startedAt)
          && (exists p :: p in file.packets && p.timestamp == imported.endedAt.value))
  }

  /** Where the imported session's fields come from: the file's session if there is one,
      else its packets and metadata, and the time of the import when nothing else is known. */
  lemma ImportedSessionSays(file: File, importedAt: real, ids: seq<EntityId>, parseDate: DateParser)
    requires |ids| == |file.packets| + 2
    ensures var session := CreateImportedSessionSnapshot(file, importedAt, ids, parseDate).session;
            var created := parseDate(file.metadata.createdAt);
            && session.name == file.metadata.sessionName && session.endedAt.Some?
            && (file.session.Some? ==> SaysWhatTheFileSays(session, file.session.value))
            && (file.session.None? ==> SpansThePackets(session, file))
            && (file.session.None? && file.packets == [] ==>
                  && session.startedAt == (if created.Some? then created.value else importedAt)
                  && session.endedAt == Some(importedAt))
            && (file.session.None? ==>
                  session.endpointUrl == if file.metadata.endpointUrl.Some? then file.metadata.endpointUrl.value
                                         else "import://socketlens/session")
            && (created.Some? ==> session.createdAt == created.value)
            && (created.None? && file.session.Some? ==> session.createdAt == file.session.value.createdAt)
            && (created.None? && file.session.None? ==> session.createdAt == session.startedAt)
  {
    var sorted := SortNewestFirst(file.packets);
    SortPermutes(file.packets, Newest);
    if sorted != [] {
      TimesOf(sorted);
      assert sorted[0] in sorted;
    }
  }

  /** Importing a file whose packets are of one session keeps every relationship: the
      index of the imported packets is the file's index under the new ids. */
  lemma ImportKeepsRelationships(
    file: File, importedAt: real, ids: seq<EntityId>, parseDate: DateParser, read: Reader, session: EntityId)
    requires |ids| == |file.packets| + 2 && AreNew(file.packets, ids)
    requires forall p :: p in file.packets ==> p.sessionId == session
    ensures var imp := ImportOf(file.packets, ids);
            var snapshot := CreateImportedSessionSnapshot(file, importedAt, ids, parseDate);
            var before, after := BuildIndex(file.packets, read), BuildIndex(snapshot.packets, read);
            && after.relationships == Map(before.relationships, RenameEdge(imp))
            && forall id :: id in before.byPacketId ==>
                 && NewId(imp, id) in after.byPacketId
                 && after.byPacketId[NewId(imp, id)] == Map(before.byPacketId[id], RenameEdge(imp))
  {
    NewIdsAreFresh(file.packets, ids);
    ImportCommutesWithIndexing(file.packets, read, ImportOf(file.packets, ids), session);
  }
}
