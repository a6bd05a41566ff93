/** The records the stores, the analysis and the session files exchange. */
module Models {
  import opened Sequences

  type EntityId = string

  datatype Direction = Inbound | Outbound

  datatype PayloadKind = Json | Text | Binary

  datatype SendSource = Manual | Replay

  datatype Annotations = Annotations(
    bookmarked: bool,
    note: string,
    suspicious: bool,
    tags: seq<string>,
    updatedAt: real)

  /** `sourcePacketId` is `None` both when the field is absent and when it is null. */
  datatype Packet = Packet(
    annotations: Option<Annotations>,
    connectionId: EntityId,
    direction: Direction,
    id: EntityId,
    payload: string,
    payloadKind: PayloadKind,
    sendSource: Option<SendSource>,
    sessionId: EntityId,
    sizeBytes: real,
    sourcePacketId: Option<EntityId>,
    timestamp: real)

  datatype SessionStatus = Connecting | Connected | Closed | Error

  datatype Session = Session(
    bytesReceived: real,
    bytesSent: real,
    closeCode: Option<real>,
    closeReason: Option<string>,
    connectionId: EntityId,
    createdAt: real,
    endedAt: Option<real>,
    endpointUrl: string,
    id: EntityId,
    name: string,
    packetsReceived: real,
    packetsSent: real,
    startedAt: real,
    status: SessionStatus)

  function Oldest(p: Packet): real { p.timestamp }

  function Newest(p: Packet): real { -p.timestamp }

  function Timestamp(p: Packet): real { p.timestamp }

  function SortOldestFirst(packets: seq<Packet>): seq<Packet> { Sort(packets, Oldest) }

  function SortNewestFirst(packets: seq<Packet>): seq<Packet> { Sort(packets, Newest) }

  function InSession(session: EntityId): Packet -> bool { (p: Packet) => p.sessionId == session }
}
