/** Session and packet-export files at the level of JSON trees: reading, writing, and
    which files read back to themselves. */
module SessionFile {
  import opened Sequences
  import opened Strings
  import opened Models
  import opened PacketAnnotations
  import opened Json

  datatype Format = SessionFormat | PacketsFormat

  datatype Redaction = Redaction(
    applied: bool,
    customRuleCount: real,
    invalidCustomRules: seq<string>,
    redactedAt: string,
    redactedPacketCount: real,
    replacement: string,
    replacements: real,
    sensitiveDataDetected: bool)

  /** The application name and the version are always the same. */
  datatype Metadata = Metadata(
    createdAt: string,
    endpointUrl: Option<string>,
    exportedAt: string,
    format: Format,
    packetCount: real,
    redaction: Option<Redaction>,
    sessionName: string,
    sourceSessionId: Option<string>)

  /** `session` is there exactly in session files. */
  datatype File = File(metadata: Metadata, packets: seq<Packet>, session: Option<Session>)

  datatype Error =
    | NotAnObject | MissingMetadata | UnsupportedFormat | UnsupportedVersion | IncompleteMetadata
    | MissingPacketList | PacketIsNotAnObject | PacketIsMissingFields
    | MissingSession | UnsupportedStatus | SessionIsMissingFields

  datatype Result<+T> = Ok(value: T) | Err(error: Error)

  const VERSION := 1.0

  function IsPresent(s: Option<string>): bool { s.Some? && s.value != "" }

  function OrZero(n: Option<real>): real { if n.Some? then n.value else 0.0 }

  // -- Names of the enumerations ----------------------------------------------------------

  function FormatName(format: Format): string {
    match format case SessionFormat => "socketlens.session" case PacketsFormat => "socketlens.packets"
  }

  function ReadFormat(s: Option<string>): Option<Format> {
    if s == Some("socketlens.session") then Some(SessionFormat)
    else if s == Some("socketlens.packets") then Some(PacketsFormat)
    else None
  }

  function StatusName(status: SessionStatus): string {
    match status
    case Connecting => "connecting" case Connected => "connected" case Closed => "closed" case Error => "error"
  }

  function ReadStatus(s: Option<string>): Option<SessionStatus> {
    if s == Some("closed") then Some(Closed)
    else if s == Some("connected") then Some(Connected)
    else if s == Some("connecting") then Some(Connecting)
    else if s == Some("error") then Some(SessionStatus.Error)
    else None
  }

  function DirectionName(direction: Direction): string {
    match direction case Inbound => "inbound" case Outbound => "outbound"
  }

  function ReadDirection(s: Option<string>): Option<Direction> {
    if s == Some("inbound") then Some(Inbound) else if s == Some("outbound") then Some(Outbound) else None
  }

  function KindName(kind: PayloadKind): string {
    match kind case Binary => "binary" case Json => "json" case Text => "text"
  }

  function ReadKind(s: Option<string>): Option<PayloadKind> {
    if s == Some("binary") then Some(Binary)
    else if s == Some("json") then Some(PayloadKind.Json)
    else if s == Some("text") then Some(Text)
    else None
  }

  function SourceName(source: SendSource): string { match source case Manual => "manual" case Replay => "replay" }

  function ReadSource(s: Option<string>): Option<SendSource> {
    if s == Some("manual") then Some(Manual) else if s == Some("replay") then Some(Replay) else None
  }

  // -- Annotations ----------------------------------------------------------------------------

  function ReadFlag(record: Record, key: string): bool { ReadBool(record, key) == Some(true) }

  function ReadText(record: Record, key: string): string {
    if ReadString(record, key).Some? then ReadString(record, key).value else ""
  }

  function NormalizePacketAnnotations(value: Option<Json>): Option<Annotations> {
    match value
    case Some(Obj(record)) =>
      var annotations := Normalize(Annotations(ReadFlag(record, "bookmarked"), ReadText(record, "note"),
                                               ReadFlag(record, "suspicious"), ReadStrings(record, "tags"),
                                               OrZero(ReadNumber(record, "updatedAt"))));
      if HasPacketAnnotations(annotations) then Some(annotations) else None
    case _ => None
  }

  function WriteAnnotations(a: Annotations): Json {
    Obj(map["bookmarked" := Bool(a.bookmarked), "note" := Str(a.note), "suspicious" := Bool(a.suspicious),
            "tags" := WriteStrings(a.tags), "updatedAt" := WriteNumber(a.updatedAt)])
  }

  /** Annotations that reading keeps as they are. */
  ghost predicate CanonicalAnnotations(a: Annotations) {
    && |a.note| <= MAX_NOTE_LENGTH && Trimmed(a.note) && AreCanonicalTags(a.tags)
    && (a.bookmarked || a.suspicious || a.note != "" || a.tags != [])
  }

  // -- Packets -----------------------------------------------------------------------------------

  /** The fields of a packet entry as they are read, before they are checked. */
  datatype PacketFields = PacketFields(
    annotations: Option<Json>, connectionId: Option<string>, direction: Option<string>, id: Option<string>,
    payload: Option<string>, payloadKind: Option<string>, sendSource: Option<string>, sessionId: Option<string>,
    sizeBytes: Option<real>, sourcePacketId: Option<string>, timestamp: Option<real>)

  function ReadPacket(record: Record): PacketFields {
    PacketFields(
      Field(record, "annotations"), ReadString(record, "connectionId"), ReadString(record, "direction"),
      ReadString(record, "id"), ReadString(record, "payload"), ReadString(record, "payloadKind"),
      ReadString(record, "sendSource"), ReadString(record, "sessionId"), ReadNumber(record, "sizeBytes"),
      ReadString(record, "sourcePacketId"), ReadNumber(record, "timestamp"))
  }

  function CheckPacket(f: PacketFields): Result<Packet> {
    if !IsPresent(f.connectionId) || ReadDirection(f.direction).None? || !IsPresent(f.id) || f.payload.None?
       || ReadKind(f.payloadKind).None? || !IsPresent(f.sessionId) || f.sizeBytes.None? || f.timestamp.None?
    then Err(PacketIsMissingFields)
    else
      var sendSource := ReadSource(f.sendSource);
      Ok(Packet(NormalizePacketAnnotations(f.annotations), f.connectionId.value, ReadDirection(f.direction).value,
                f.id.value, f.payload.value, ReadKind(f.payloadKind).value, sendSource, f.sessionId.value,
                f.sizeBytes.value, if sendSource.Some? then f.sourcePacketId else None, f.timestamp.value))
  }

  function ParsePacket(value: Json): Result<Packet> {
    if value.Obj? then CheckPacket(ReadPacket(value.fields)) else Err(PacketIsNotAnObject)
  }

  /** Optional fields that are absent are left out; a sent packet without a source has
      a null one. */
  function WritePacket(p: Packet): Json {
    Obj(map["connectionId" := Str(p.connectionId), "direction" := Str(DirectionName(p.direction)), "id" := Str(p.id),
            "payload" := Str(p.payload), "payloadKind" := Str(KindName(p.payloadKind)), "sessionId" := Str(p.sessionId),
            "sizeBytes" := WriteNumber(p.sizeBytes), "timestamp" := WriteNumber(p.timestamp)]
        + (if p.annotations.Some? then map["annotations" := WriteAnnotations(p.annotations.value)] else map[])
        + (if p.sendSource.Some?
           then map["sendSource" := Str(SourceName(p.sendSource.value)),
                     "sourcePacketId" := StringOrNull(p.sourcePacketId)]
           else map[]))
  }

  ghost predicate CanonicalPacket(p: Packet) {
    && p.connectionId != "" && p.id != "" && p.sessionId != ""
    && (p.sendSource.None? ==> p.sourcePacketId.None?)
    && (p.annotations.Some? ==> CanonicalAnnotations(p.annotations.value))
  }

  // -- Packet lists -----------------------------------------------------------------------------

  /** The values of a list, or the error of the first bad entry. */
  function ParseEach<T(!new)>(items: seq<Json>, parse: Json -> Result<T>): Result<seq<T>>
    decreases |items|
  {
    if items == [] then Ok([])
    else
      match ParseEach(items[..|items| - 1], parse)
      case Err(error) => Err(error)
      case Ok(values) =>
        match parse(items[|items| - 1])
        case Err(error) => Err(error)
        case Ok(value) => Ok(values + [value])
  }

  function ParsePackets(value: Option<Json>): Result<seq<Packet>> {
    match value
    case Some(Arr(items)) =>
      (match ParseEach(items, ParsePacket)
       case Err(error) => Err(error)
       case Ok(packets) => Ok(SortNewestFirst(packets)))
    case _ => Err(MissingPacketList)
  }

  lemma {:induction false} FirstErrorStands<T(!new)>(items: seq<Json>, parse: Json -> Result<T>, n: nat)
    requires n <= |items| && ParseEach(items[..n], parse).Err?
    ensures ParseEach(items, parse) == ParseEach(items[..n], parse)
    decreases |items|
  {
    if n == |items| {
      assert items[..n] == items;
    } else {
      assert items[..|items| - 1][..n] == items[..n];
      FirstErrorStands(items[..|items| - 1], parse, n);
    }
  }

  /** The loop over the entries, which stops at the first bad one. */
  method ParseEntries<T(!new)>(items: seq<Json>, parse: Json -> Result<T>) returns (result: Result<seq<T>>)
    ensures result == ParseEach(items, parse)
  {
    var values: seq<T> := [];
    for i := 0 to |items|
      invariant ParseEach(items[..i], parse) == Ok(values)
    {
      assert items[..i + 1][..i] == items[..i];
      var parsed := parse(items[i]);
      if parsed.Err? {
        FirstErrorStands(items, parse, i + 1);
        return Err(parsed.error);
      }
      values := values + [parsed.value];
    }
    assert items[..|items|] == items;
    result := Ok(values);
  }

  method ParsePacketList(value: Option<Json>) returns (result: Result<seq<Packet>>)
    ensures result == ParsePackets(value)
  {
    if value.None? || !value.value.Arr? {
      return Err(MissingPacketList);
    }
    var packets := ParseEntries(value.value.items, ParsePacket);
    result := if packets.Err? then Err(packets.error) else Ok(SortNewestFirst(packets.value));
  }

  function ToWritten(p: Packet): Json { WritePacket(p) }

  function WritePackets(packets: seq<Packet>): Json { Arr(Map(packets, ToWritten)) }

  // -- Metadata -----------------------------------------------------------------------------------

  datatype RedactionFields = RedactionFields(
    applied: Option<bool>, customRuleCount: Option<real>, invalidCustomRules: seq<string>, redactedAt: Option<string>,
    redactedPacketCount: Option<real>, replacement: Option<string>, replacements: Option<real>,
    sensitiveDataDetected: Option<bool>)

  function ReadRedaction(record: Record): RedactionFields {
    RedactionFields(
      ReadBool(record, "applied"), ReadNumber(record, "customRuleCount"), ReadStrings(record, "invalidCustomRules"),
      ReadString(record, "redactedAt"), ReadNumber(record, "redactedPacketCount"), ReadString(record, "replacement"),
      ReadNumber(record, "replacements"), ReadBool(record, "sensitiveDataDetected"))
  }

  function CheckRedaction(f: RedactionFields): Option<Redaction> {
    if f.applied.None? || f.customRuleCount.None? || !IsPresent(f.redactedAt) || f.redactedPacketCount.None?
       || !IsPresent(f.replacement) || f.replacements.None? || f.sensitiveDataDetected.None?
    then None
    else Some(Redaction(f.applied.value, f.customRuleCount.value, f.invalidCustomRules, f.redactedAt.value,
                        f.redactedPacketCount.value, f.replacement.value, f.replacements.value,
                        f.sensitiveDataDetected.value))
  }

  function ParseRedaction(value: Option<Json>): Option<Redaction> {
    match value case Some(Obj(record)) => CheckRedaction(ReadRedaction(record)) case _ => None
  }

  function WriteRedaction(r: Redaction): Json {
    Obj(map["applied" := Bool(r.applied), "customRuleCount" := WriteNumber(r.customRuleCount),
            "invalidCustomRules" := WriteStrings(r.invalidCustomRules), "redactedAt" := Str(r.redactedAt),
            "redactedPacketCount" := WriteNumber(r.redactedPacketCount), "replacement" := Str(r.replacement),
            "replacements" := WriteNumber(r.replacements), "sensitiveDataDetected" := Bool(r.sensitiveDataDetected)])
  }

  datatype MetadataFields = MetadataFields(
    createdAt: Option<string>, endpointUrl: Option<string>, exportedAt: Option<string>, format: Option<string>,
    packetCount: Option<real>, redaction: Option<Json>, sessionName: Option<string>, sourceSessionId: Option<string>,
    version: Option<real>)

  function ReadMetadata(record: Record): MetadataFields {
    MetadataFields(
      ReadString(record, "createdAt"), ReadString(record, "endpointUrl"), ReadString(record, "exportedAt"),
      ReadString(record, "format"), ReadNumber(record, "packetCount"), Field(record, "redaction"),
      ReadString(record, "sessionName"), ReadString(record, "sourceSessionId"), ReadNumber(record, "version"))
  }

  function CheckMetadata(f: MetadataFields): Result<Metadata> {
    if ReadFormat(f.format).None? then Err(UnsupportedFormat)
    else if f.version != Some(VERSION) then Err(UnsupportedVersion)
    else if f.sessionName.None? || Trim(f.sessionName.value) == "" || !IsPresent(f.createdAt)
            || !IsPresent(f.exportedAt) || f.packetCount.None?
    then Err(IncompleteMetadata)
    else Ok(Metadata(f.createdAt.value, f.endpointUrl, f.exportedAt.value, ReadFormat(f.format).value,
                     f.packetCount.value, ParseRedaction(f.redaction), Trim(f.sessionName.value), f.sourceSessionId))
  }

  function ParseMetadata(value: Option<Json>): Result<Metadata> {
    match value case Some(Obj(record)) => CheckMetadata(ReadMetadata(record)) case _ => Err(MissingMetadata)
  }

  function WriteMetadata(m: Metadata): Json {
    Obj(map["appName" := Str("SocketLens"), "createdAt" := Str(m.createdAt),
            "endpointUrl" := StringOrNull(m.endpointUrl),
            "exportedAt" := Str(m.exportedAt), "format" := Str(FormatName(m.format)),
            "packetCount" := WriteNumber(m.packetCount), "sessionName" := Str(m.sessionName),
            "sourceSessionId" := StringOrNull(m.sourceSessionId), "version" := WriteNumber(VERSION)]
        + (if m.redaction.Some? then map["redaction" := WriteRedaction(m.redaction.value)] else map[]))
  }

  // -- Sessions ---------------------------------------------------------------------------------------

  datatype SessionFields = SessionFields(
    bytesReceived: Option<real>, bytesSent: Option<real>, closeCode: Option<real>, closeReason: Option<string>,
    connectionId: Option<string>, createdAt: Option<real>, endedAt: Option<real>, endpointUrl: Option<string>,
    id: Option<string>, name: Option<string>, packetsReceived: Option<real>, packetsSent: Option<real>,
    startedAt: Option<real>, status: Option<string>)

  function ReadSession(record: Record): SessionFields {
    SessionFields(
      ReadNumber(record, "bytesReceived"), ReadNumber(record, "bytesSent"), ReadNumber(record, "closeCode"),
      ReadString(record, "closeReason"), ReadString(record, "connectionId"), ReadNumber(record, "createdAt"),
      ReadNumber(record, "endedAt"), ReadString(record, "endpointUrl"), ReadString(record, "id"),
      ReadString(record, "name"), ReadNumber(record, "packetsReceived"), ReadNumber(record, "packetsSent"),
      ReadNumber(record, "startedAt"), ReadString(record, "status"))
  }

  function CheckSession(f: SessionFields, fallbackName: string): Result<Session> {
    if ReadStatus(f.status).None? then Err(UnsupportedStatus)
    else if !IsPresent(f.connectionId) || !IsPresent(f.endpointUrl) || !IsPresent(f.id) || f.startedAt.None?
    then Err(SessionIsMissingFields)
    else
      var name := if f.name.Some? then Trim(f.name.value) else "";
      Ok(Session(OrZero(f.bytesReceived), OrZero(f.bytesSent), f.closeCode, f.closeReason, f.connectionId.value,
                 if f.createdAt.Some? then f.createdAt.value else f.startedAt.value, f.endedAt, f.endpointUrl.value,
                 f.id.value, if name != "" then name else fallbackName, OrZero(f.packetsReceived),
                 OrZero(f.packetsSent), f.startedAt.value, ReadStatus(f.status).value))
  }

  function ParseSession(value: Option<Json>, fallbackName: string): Result<Session> {
    match value case Some(Obj(record)) => CheckSession(ReadSession(record), fallbackName) case _ => Err(MissingSession)
  }

  function WriteSession(s: Session): Json {
    Obj(map["bytesReceived" := WriteNumber(s.bytesReceived), "bytesSent" := WriteNumber(s.bytesSent),
            "closeCode" := NumberOrNull(s.closeCode), "closeReason" := StringOrNull(s.closeReason),
            "connectionId" := Str(s.connectionId), "createdAt" := WriteNumber(s.createdAt),
            "endedAt" := NumberOrNull(s.endedAt), "endpointUrl" := Str(s.endpointUrl), "id" := Str(s.id),
            "name" := Str(s.name), "packetsReceived" := WriteNumber(s.packetsReceived),
            "packetsSent" := WriteNumber(s.packetsSent), "startedAt" := WriteNumber(s.startedAt),
            "status" := Str(StatusName(s.status))])
  }

  // -- Files ---------------------------------------------------------------------------------------------

  datatype FileFields = FileFields(metadata: Option<Json>, packets: Option<Json>, session: Option<Json>)

  function ReadFile(record: Record): FileFields {
    FileFields(Field(record, "metadata"), Field(record, "packets"), Field(record, "session"))
  }

  /** The file's own packet count is replaced by the number of packets read. */
  function CheckFile(f: FileFields): Result<File> {
    match ParseMetadata(f.metadata)
    case Err(error) => Err(error)
    case Ok(read) =>
      match ParsePackets(f.packets)
      case Err(error) => Err(error)
      case Ok(packets) =>
        var metadata := read.(packetCount := |packets| as real);
        if metadata.format == PacketsFormat then Ok(File(metadata, packets, None))
        else
          match ParseSession(f.session, metadata.sessionName)
          case Err(error) => Err(error)
          case Ok(session) => Ok(File(metadata, packets, Some(session)))
  }

  /** `parseSocketLensFile`, after `JSON.parse`. */
  function ParseFile(parsed: Json): Result<File> {
    if parsed.Obj? then CheckFile(ReadFile(parsed.fields)) else Err(NotAnObject)
  }

  function WriteFile(file: File): Json {
    Obj(map["metadata" := WriteMetadata(file.metadata), "packets" := WritePackets(file.packets)]
        + (if file.session.Some? then map["session" := WriteSession(file.session.value)] else map[]))
  }

  /** A session file holds a session, a packet export none. */
  predicate IsImportable(file: File) { file.session.Some? <==> file.metadata.format == SessionFormat }

  // -- Creating files ---------------------------------------------------------------------------------

  /** The trimmed name when there is one, else the session's own, else one made from
      its endpoint. */
  function NormalizeSessionName(sessionName: Option<string>, session: Session, nameOf: string -> string): string {
    if sessionName.Some? && Trim(sessionName.value) != "" then Trim(sessionName.value)
    else if session.name != "" then session.name
    else nameOf(session.endpointUrl)
  }

  /** `iso` is `new Date(time).toISOString()`. */
  function CreateSessionFile(
    exportedAt: real, packets: seq<Packet>, session: Session, sessionName: Option<string>,
    iso: real -> string, nameOf: string -> string): File
  {
    var sessionPackets := SortNewestFirst(Filter(packets, InSession(session.id)));
    var name := NormalizeSessionName(sessionName, session, nameOf);
    File(Metadata(iso(session.createdAt), Some(session.endpointUrl), iso(exportedAt), SessionFormat,
                  |sessionPackets| as real, None, name, Some(session.id)),
         sessionPackets, Some(session.(name := name)))
  }
}
