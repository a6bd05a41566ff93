/** Which session files read back to themselves after they are written. */
module SessionFileRoundTrip {
  import opened Sequences
  import opened Strings
  import opened Models
  import opened PacketAnnotations
  import opened Json
  import opened SessionFile

  // -- Annotations ----------------------------------------------------------------------------

  /** What is read back before normalising is what was written. */
  lemma WrittenAnnotationsRead(a: Annotations)
    ensures var record := WriteAnnotations(a).fields;
            && ReadFlag(record, "bookmarked") == a.bookmarked && ReadText(record, "note") == a.note
            && ReadFlag(record, "suspicious") == a.suspicious && ReadStrings(record, "tags") == a.tags
            && ReadNumber(record, "updatedAt") == Some(a.updatedAt)
  {
    StringsReadBack(a.tags);
  }

  lemma AnnotationsReadBackIff(a: Annotations)
    ensures NormalizePacketAnnotations(Some(WriteAnnotations(a))) == Some(a) <==> CanonicalAnnotations(a)
  {
    WrittenAnnotationsRead(a);
    assert NormalizePacketAnnotations(Some(WriteAnnotations(a)))
        == if HasPacketAnnotations(Normalize(a)) then Some(Normalize(a)) else None;
    KeptIff(a);
  }

  lemma KeptIff(a: Annotations)
    ensures Normalize(a) == a && HasPacketAnnotations(a) <==> CanonicalAnnotations(a)
  {
    NoteIsKeptIff(a.note);
    TagsAreKeptIff(a.tags);
    TrimTrims(a.note);
  }

  /** Annotations that were read are canonical but for the end of the note. */
  lemma ReadAnnotationsAreCanonical(value: Option<Json>)
    requires NormalizePacketAnnotations(value).Some?
    ensures var a := NormalizePacketAnnotations(value).value; CanonicalAnnotations(a) <==> Trimmed(a.note)
  {
    var record := value.value.fields;
    NormalizedNote(ReadText(record, "note"));
    TagsAreKeptIff(ReadStrings(record, "tags"));
    TrimShortens(NormalizePacketAnnotations(value).value.note);
  }

  // -- Packets ----------------------------------------------------------------------------------

  lemma EnumerationsReadBack(p: Packet)
    ensures ReadDirection(Some(DirectionName(p.direction))) == Some(p.direction)
    ensures ReadKind(Some(KindName(p.payloadKind))) == Some(p.payloadKind)
    ensures p.sendSource.Some? ==> ReadSource(Some(SourceName(p.sendSource.value))) == p.sendSource
  {
  }

  /** The fields of a written packet, as they are read. */
  lemma WrittenIdsRead(p: Packet)
    ensures var record := WritePacket(p).fields;
            && ReadString(record, "connectionId") == Some(p.connectionId)
            && ReadString(record, "id") == Some(p.id)
            && ReadString(record, "sessionId") == Some(p.sessionId)
  {
  }

  lemma WrittenPayloadRead(p: Packet)
    ensures var record := WritePacket(p).fields;
            && ReadString(record, "direction") == Some(DirectionName(p.direction))
            && ReadString(record, "payload") == Some(p.payload)
            && ReadString(record, "payloadKind") == Some(KindName(p.payloadKind))
  {
  }

  lemma WrittenNumbersRead(p: Packet)
    ensures var record := WritePacket(p).fields;
            && ReadNumber(record, "sizeBytes") == Some(p.sizeBytes)
            && ReadNumber(record, "timestamp") == Some(p.timestamp)
  {
  }

  lemma WrittenOptionalsRead(p: Packet)
    ensures var record := WritePacket(p).fields;
            && Field(record, "annotations")
               == (if p.annotations.Some? then Some(WriteAnnotations(p.annotations.value)) else None)
            && ReadString(record, "sendSource")
               == (if p.sendSource.Some? then Some(SourceName(p.sendSource.value)) else None)
            && ReadString(record, "sourcePacketId") == (if p.sendSource.Some? then p.sourcePacketId else None)
  {
  }

  function FieldsOf(p: Packet): PacketFields {
    PacketFields(
      if p.annotations.Some? then Some(WriteAnnotations(p.annotations.value)) else None,
      Some(p.connectionId), Some(DirectionName(p.direction)), Some(p.id), Some(p.payload),
      Some(KindName(p.payloadKind)),
      if p.sendSource.Some? then Some(SourceName(p.sendSource.value)) else None,
      Some(p.sessionId), Some(p.sizeBytes), if p.sendSource.Some? then p.sourcePacketId else None, Some(p.timestamp))
  }

  lemma WrittenPacketRead(p: Packet)
    ensures ReadPacket(WritePacket(p).fields) == FieldsOf(p)
  {
    WrittenIdsRead(p);
    WrittenPayloadRead(p);
    WrittenNumbersRead(p);
    WrittenOptionalsRead(p);
  }

  lemma FieldsAreCheckedIff(p: Packet)
    ensures CheckPacket(FieldsOf(p)) == Ok(p) <==> CanonicalPacket(p)
  {
    EnumerationsReadBack(p);
    if p.annotations.Some? {
      AnnotationsReadBackIff(p.annotations.value);
    }
  }

  /** A packet reads back iff it is canonical. */
  lemma PacketReadsBackIff(p: Packet)
    ensures ParsePacket(WritePacket(p)) == Ok(p) <==> CanonicalPacket(p)
  {
    WrittenPacketRead(p);
    FieldsAreCheckedIff(p);
  }

  lemma ReadPacketsAreCanonical(value: Json)
    requires ParsePacket(value).Ok?
    ensures var p := ParsePacket(value).value;
            CanonicalPacket(p) <==> (p.annotations.Some? ==> Trimmed(p.annotations.value.note))
  {
    var p := ParsePacket(value).value;
    if p.annotations.Some? {
      ReadAnnotationsAreCanonical(Field(value.fields, "annotations"));
    }
  }

  // -- Packet lists -----------------------------------------------------------------------------

  lemma {:induction false} EachIsParsed<T(!new)>(items: seq<Json>, parse: Json -> Result<T>)
    ensures var result := ParseEach(items, parse);
            result.Ok? <==> forall i :: 0 <= i < |items| ==> parse(items[i]).Ok?
    ensures var result := ParseEach(items, parse);
            result.Ok? ==> |result.value| == |items|
                           && forall i :: 0 <= i < |items| ==> parse(items[i]) == Ok(result.value[i])
    decreases |items|
  {
    if items != [] {
      EachIsParsed(items[..|items| - 1], parse);
    }
  }

  /** Reading each entry and sorting gives back the list iff each entry reads back and
      the list is sorted, when reading keeps the sort key. */
  lemma SortedListReadsBackIff<T(!new)>(xs: seq<T>, write: T -> Json, parse: Json -> Result<T>, key: T -> real)
    requires forall x :: x in xs && parse(write(x)).Ok? ==> key(parse(write(x)).value) == key(x)
    ensures var result := ParseEach(Map(xs, write), parse);
            (result.Ok? && Sort(result.value, key) == xs) <==>
            (forall x :: x in xs ==> parse(write(x)) == Ok(x)) && SortedBy(xs, key)
  {
    EachIsParsed(Map(xs, write), parse);
    var result := ParseEach(Map(xs, write), parse);
    if result.Ok? {
      var ys := result.value;
      forall i | 0 <= i < |xs| ensures parse(write(xs[i])) == Ok(ys[i]) && key(ys[i]) == key(xs[i]) {
        assert Map(xs, write)[i] == write(xs[i]) && xs[i] in xs;
      }
      SortSorts(ys, key);
      if SortedBy(xs, key) {
        assert SortedBy(ys, key);
        SortSorted(ys, key);
        EqualOrNot(xs, ys, write, parse);
      }
    } else {
      var i :| 0 <= i < |xs| && parse(Map(xs, write)[i]).Err?;
      assert xs[i] in xs;
    }
  }

  lemma EqualOrNot<T(!new)>(xs: seq<T>, ys: seq<T>, write: T -> Json, parse: Json -> Result<T>)
    requires |xs| == |ys| && forall i :: 0 <= i < |xs| ==> parse(write(xs[i])) == Ok(ys[i])
    ensures ys == xs <==> forall x :: x in xs ==> parse(write(x)) == Ok(x)
  {
    if ys == xs {
      forall x | x in xs ensures parse(write(x)) == Ok(x) {
        var i :| 0 <= i < |xs| && xs[i] == x;
      }
    }
    if forall x :: x in xs ==> parse(write(x)) == Ok(x) {
      forall i | 0 <= i < |xs| ensures ys[i] == xs[i] {
        assert xs[i] in xs;
      }
    }
  }

  lemma ReadingKeepsTime(p: Packet)
    requires ParsePacket(WritePacket(p)).Ok?
    ensures Newest(ParsePacket(WritePacket(p)).value) == Newest(p)
  {
    WrittenPacketRead(p);
  }

  /** A packet list reads back iff its packets are canonical and newest first. */
  lemma PacketsReadBackIff(packets: seq<Packet>)
    ensures ParsePackets(Some(WritePackets(packets))) == Ok(packets) <==>
            (forall p :: p in packets ==> CanonicalPacket(p)) && SortedBy(packets, Newest)
  {
    forall p | p in packets && ParsePacket(ToWritten(p)).Ok?
      ensures Newest(ParsePacket(ToWritten(p)).value) == Newest(p)
    {
      ReadingKeepsTime(p);
    }
    SortedListReadsBackIff(packets, ToWritten, ParsePacket, Newest);
    forall p | p in packets ensures ParsePacket(ToWritten(p)) == Ok(p) <==> CanonicalPacket(p) {
      PacketReadsBackIff(p);
    }
  }

  // -- Redaction notes -------------------------------------------------------------------------------

  ghost predicate CanonicalRedaction(r: Redaction) { r.redactedAt != "" && r.replacement != "" }

  function RedactionFieldsOf(r: Redaction): RedactionFields {
    RedactionFields(Some(r.applied), Some(r.customRuleCount), r.invalidCustomRules, Some(r.redactedAt),
                    Some(r.redactedPacketCount), Some(r.replacement), Some(r.replacements),
                    Some(r.sensitiveDataDetected))
  }

  lemma WrittenRedactionCountsRead(r: Redaction)
    ensures var record := WriteRedaction(r).fields;
            && ReadNumber(record, "customRuleCount") == Some(r.customRuleCount)
            && ReadNumber(record, "redactedPacketCount") == Some(r.redactedPacketCount)
            && ReadNumber(record, "replacements") == Some(r.replacements)
  {
  }

  lemma WrittenRedactionTextsRead(r: Redaction)
    ensures var record := WriteRedaction(r).fields;
            && ReadStrings(record, "invalidCustomRules") == r.invalidCustomRules
            && ReadString(record, "redactedAt") == Some(r.redactedAt)
            && ReadString(record, "replacement") == Some(r.replacement)
  {
    StringsReadBack(r.invalidCustomRules);
  }

  lemma WrittenRedactionFlagsRead(r: Redaction)
    ensures var record := WriteRedaction(r).fields;
            && ReadBool(record, "applied") == Some(r.applied)
            && ReadBool(record, "sensitiveDataDetected") == Some(r.sensitiveDataDetected)
  {
  }

  lemma RedactionReadsBackIff(r: Redaction)
    ensures ParseRedaction(Some(WriteRedaction(r))) == Some(r) <==> CanonicalRedaction(r)
  {
    WrittenRedactionCountsRead(r);
    WrittenRedactionTextsRead(r);
    WrittenRedactionFlagsRead(r);
    assert ReadRedaction(WriteRedaction(r).fields) == RedactionFieldsOf(r);
  }

  // -- Metadata ----------------------------------------------------------------------------------------

  ghost predicate CanonicalMetadata(m: Metadata) {
    && m.createdAt != "" && m.exportedAt != "" && m.sessionName != "" && Trimmed(m.sessionName)
    && (m.redaction.Some? ==> CanonicalRedaction(m.redaction.value))
  }

  function MetadataFieldsOf(m: Metadata): MetadataFields {
    MetadataFields(
      Some(m.createdAt), m.endpointUrl, Some(m.exportedAt), Some(FormatName(m.format)), Some(m.packetCount),
      if m.redaction.Some? then Some(WriteRedaction(m.redaction.value)) else None,
      Some(m.sessionName), m.sourceSessionId, Some(VERSION))
  }

  lemma WrittenMetadataTimesRead(m: Metadata)
    ensures var record := WriteMetadata(m).fields;
            && ReadString(record, "createdAt") == Some(m.createdAt)
            && ReadString(record, "exportedAt") == Some(m.exportedAt)
            && ReadNumber(record, "packetCount") == Some(m.packetCount)
  {
  }

  lemma WrittenMetadataNamesRead(m: Metadata)
    ensures var record := WriteMetadata(m).fields;
            && ReadString(record, "endpointUrl") == m.endpointUrl
            && ReadString(record, "sessionName") == Some(m.sessionName)
            && ReadString(record, "sourceSessionId") == m.sourceSessionId
  {
  }

  lemma WrittenMetadataFormatRead(m: Metadata)
    ensures var record := WriteMetadata(m).fields;
            && ReadString(record, "format") == Some(FormatName(m.format))
            && ReadNumber(record, "version") == Some(VERSION)
            && Field(record, "redaction")
               == (if m.redaction.Some? then Some(WriteRedaction(m.redaction.value)) else None)
  {
  }

  lemma MetadataFieldsAreCheckedIff(m: Metadata)
    ensures CheckMetadata(MetadataFieldsOf(m)) == Ok(m) <==> CanonicalMetadata(m)
  {
    TrimTrims(m.sessionName);
    assert ReadFormat(Some(FormatName(m.format))) == Some(m.format);
    if m.redaction.Some? {
      RedactionReadsBackIff(m.redaction.value);
    }
  }

  lemma WrittenMetadataRead(m: Metadata)
    ensures ParseMetadata(Some(WriteMetadata(m))) == CheckMetadata(MetadataFieldsOf(m))
  {
    WrittenMetadataTimesRead(m);
    WrittenMetadataNamesRead(m);
    WrittenMetadataFormatRead(m);
    assert ReadMetadata(WriteMetadata(m).fields) == MetadataFieldsOf(m);
  }

  lemma ReadMetadataIsCanonical(value: Option<Json>)
    requires ParseMetadata(value).Ok?
    ensures CanonicalMetadata(ParseMetadata(value).value)
  {
    TrimTrims(ReadMetadata(value.value.fields).sessionName.value);
  }

  // -- Sessions ------------------------------------------------------------------------------------------

  ghost predicate CanonicalSession(s: Session) {
    s.connectionId != "" && s.endpointUrl != "" && s.id != "" && s.name != "" && Trimmed(s.name)
  }

  function SessionFieldsOf(s: Session): SessionFields {
    SessionFields(
      Some(s.bytesReceived), Some(s.bytesSent), s.closeCode, s.closeReason, Some(s.connectionId), Some(s.createdAt),
      s.endedAt, Some(s.endpointUrl), Some(s.id), Some(s.name), Some(s.packetsReceived), Some(s.packetsSent),
      Some(s.startedAt), Some(StatusName(s.status)))
  }

  lemma WrittenSessionCountersRead(s: Session)
    ensures var record := WriteSession(s).fields;
            && ReadNumber(record, "bytesReceived") == Some(s.bytesReceived)
            && ReadNumber(record, "bytesSent") == Some(s.bytesSent)
            && ReadNumber(record, "packetsReceived") == Some(s.packetsReceived)
            && ReadNumber(record, "packetsSent") == Some(s.packetsSent)
  {
  }

  lemma WrittenSessionTimesRead(s: Session)
    ensures var record := WriteSession(s).fields;
            && ReadNumber(record, "createdAt") == Some(s.createdAt)
            && ReadNumber(record, "endedAt") == s.endedAt
            && ReadNumber(record, "startedAt") == Some(s.startedAt)
  {
  }

  lemma WrittenSessionIdsRead(s: Session)
    ensures var record := WriteSession(s).fields;
            && ReadString(record, "connectionId") == Some(s.connectionId)
            && ReadString(record, "endpointUrl") == Some(s.endpointUrl)
            && ReadString(record, "id") == Some(s.id)
            && ReadString(record, "name") == Some(s.name)
  {
  }

  lemma WrittenSessionStatusRead(s: Session)
    ensures var record := WriteSession(s).fields;
            && ReadString(record, "status") == Some(StatusName(s.status))
            && ReadNumber(record, "closeCode") == s.closeCode
            && ReadString(record, "closeReason") == s.closeReason
  {
  }

  lemma WrittenSessionRead(s: Session, fallbackName: string)
    ensures ParseSession(Some(WriteSession(s)), fallbackName) == CheckSession(SessionFieldsOf(s), fallbackName)
  {
    WrittenSessionCountersRead(s);
    WrittenSessionTimesRead(s);
    WrittenSessionIdsRead(s);
    WrittenSessionStatusRead(s);
    assert ReadSession(WriteSession(s).fields) == SessionFieldsOf(s);
  }

  lemma SessionFieldsAreCheckedIff(s: Session, fallbackName: string)
    requires fallbackName != "" && Trimmed(fallbackName)
    ensures CheckSession(SessionFieldsOf(s), fallbackName) == Ok(s) <==> CanonicalSession(s)
  {
    TrimTrims(s.name);
    TrimTrims(fallbackName);
    assert ReadStatus(Some(StatusName(s.status))) == Some(s.status);
  }

  lemma ReadSessionIsCanonical(value: Option<Json>, fallbackName: string)
    requires fallbackName != "" && Trimmed(fallbackName) && ParseSession(value, fallbackName).Ok?
    ensures CanonicalSession(ParseSession(value, fallbackName).value)
  {
    var name := ReadSession(value.value.fields).name;
    if name.Some? {
      TrimTrims(name.value);
    }
  }

  // -- Files ------------------------------------------------------------------------------------------------

  /** Files in the form reading leaves them in. */
  ghost predicate CanonicalFile(file: File) {
    && CanonicalMetadata(file.metadata) && file.metadata.packetCount == |file.packets| as real
    && (forall p :: p in file.packets ==> CanonicalPacket(p)) && SortedBy(file.packets, Newest)
    && IsImportable(file) && (file.session.Some? ==> CanonicalSession(file.session.value))
  }

  ghost predicate NotesTrimmed(file: File) {
    forall p :: p in file.packets && p.annotations.Some? ==> Trimmed(p.annotations.value.note)
  }

  lemma WrittenFileRead(file: File)
    ensures ReadFile(WriteFile(file).fields)
            == FileFields(Some(WriteMetadata(file.metadata)), Some(WritePackets(file.packets)),
                          if file.session.Some? then Some(WriteSession(file.session.value)) else None)
  {
  }

  lemma CheckedMetadataKeeps(m: Metadata)
    requires CheckMetadata(MetadataFieldsOf(m)).Ok?
    ensures var read := CheckMetadata(MetadataFieldsOf(m)).value;
            && read.packetCount == m.packetCount && read.format == m.format
            && read.sessionName != "" && Trimmed(read.sessionName)
  {
    TrimTrims(m.sessionName);
    assert ReadFormat(Some(FormatName(m.format))) == Some(m.format);
  }

  /** What is read from a written file, part by part. */
  lemma ReadBack(file: File)
    ensures ParseFile(WriteFile(file))
            == CheckParts(CheckMetadata(MetadataFieldsOf(file.metadata)),
                          ParsePackets(Some(WritePackets(file.packets))),
                          if file.session.Some? then Some(SessionFieldsOf(file.session.value)) else None)
  {
    WrittenFileRead(file);
    WrittenMetadataRead(file.metadata);
    if file.session.Some? && CheckMetadata(MetadataFieldsOf(file.metadata)).Ok? {
      WrittenSessionRead(file.session.value, CheckMetadata(MetadataFieldsOf(file.metadata)).value.sessionName);
    }
  }

  function CheckParts(
    metadata: Result<Metadata>, packets: Result<seq<Packet>>, session: Option<SessionFields>): Result<File>
  {
    match metadata
    case Err(error) => Err(error)
    case Ok(read) =>
      match packets
      case Err(error) => Err(error)
      case Ok(packets) =>
        var metadata := read.(packetCount := |packets| as real);
        if metadata.format == PacketsFormat then Ok(File(metadata, packets, None))
        else
          match session
          case None => Err(MissingSession)
          case Some(fields) =>
            match CheckSession(fields, metadata.sessionName)
            case Err(error) => Err(error)
            case Ok(session) => Ok(File(metadata, packets, Some(session)))
  }

  /** A file reads back to itself iff it is canonical. */
  lemma FileReadsBackIff(file: File)
    ensures ParseFile(WriteFile(file)) == Ok(file) <==> CanonicalFile(file)
  {
    ReadBack(file);
    PacketsReadBackIff(file.packets);
    MetadataFieldsAreCheckedIff(file.metadata);
    if CheckMetadata(MetadataFieldsOf(file.metadata)).Ok? {
      CheckedMetadataKeeps(file.metadata);
      if file.session.Some? {
        SessionFieldsAreCheckedIff(file.session.value,
                                   CheckMetadata(MetadataFieldsOf(file.metadata)).value.sessionName);
      }
    }
  }

  // -- Accepted files -----------------------------------------------------------------------------------------

  lemma ReadPacketList(value: Option<Json>, p: Packet)
    requires ParsePackets(value).Ok? && p in ParsePackets(value).value
    ensures exists item :: ParsePacket(item) == Ok(p)
  {
    var items := value.value.items;
    EachIsParsed(items, ParsePacket);
    var packets := ParseEach(items, ParsePacket).value;
    SortPermutes(packets, Newest);
    var i :| 0 <= i < |packets| && packets[i] == p;
    assert ParsePacket(items[i]) == Ok(p);
  }

  lemma ReadListIsSorted(value: Option<Json>)
    requires ParsePackets(value).Ok?
    ensures SortedBy(ParsePackets(value).value, Newest)
  {
    SortSorts(ParseEach(value.value.items, ParsePacket).value, Newest);
  }

  lemma AcceptedPackets(value: Option<Json>)
    requires ParsePackets(value).Ok?
    ensures forall p :: p in ParsePackets(value).value ==>
              (CanonicalPacket(p) <==> (p.annotations.Some? ==> Trimmed(p.annotations.value.note)))
  {
    forall p | p in ParsePackets(value).value
      ensures CanonicalPacket(p) <==> (p.annotations.Some? ==> Trimmed(p.annotations.value.note))
    {
      ReadPacketList(value, p);
      var item :| ParsePacket(item) == Ok(p);
      ReadPacketsAreCanonical(item);
    }
  }

  /** A file that was accepted is canonical but for the ends of its notes. */
  lemma AcceptedFilesAreCanonical(parsed: Json)
    requires ParseFile(parsed).Ok?
    ensures CanonicalFile(ParseFile(parsed).value) <==> NotesTrimmed(ParseFile(parsed).value)
  {
    var fields, file := ReadFile(parsed.fields), ParseFile(parsed).value;
    ReadMetadataIsCanonical(fields.metadata);
    AcceptedPackets(fields.packets);
    ReadListIsSorted(fields.packets);
    if file.session.Some? {
      ReadSessionIsCanonical(fields.session, ParseMetadata(fields.metadata).value.sessionName);
    }
    assert NotesTrimmed(file) <==> forall p :: p in file.packets ==> CanonicalPacket(p);
  }

  /** Every file the reader accepts reads back to itself after it is written, iff the
      2,000-character cut left no white space at the end of a note. */
  lemma AcceptedFilesReadBackIff(parsed: Json)
    requires ParseFile(parsed).Ok?
    ensures var file := ParseFile(parsed).value; ParseFile(WriteFile(file)) == Ok(file) <==> NotesTrimmed(file)
  {
    AcceptedFilesAreCanonical(parsed);
    FileReadsBackIff(ParseFile(parsed).value);
  }

  /** A file made from a session reads back to itself iff the session's ids, endpoint and
      name and its packets are in normal form; order and packet count always are. */
  lemma CreatedFilesReadBackIff(
    exportedAt: real, packets: seq<Packet>, session: Session, sessionName: Option<string>,
    iso: real -> string, nameOf: string -> string)
    requires forall time :: iso(time) != ""
    ensures var file := CreateSessionFile(exportedAt, packets, session, sessionName, iso, nameOf);
            ParseFile(WriteFile(file)) == Ok(file) <==>
            && CanonicalSession(file.session.value)
            && forall p :: p in packets && p.sessionId == session.id ==> CanonicalPacket(p)
  {
    FileReadsBackIff(CreateSessionFile(exportedAt, packets, session, sessionName, iso, nameOf));
    OwnPackets(packets, session.id);
  }

  lemma OwnPackets(packets: seq<Packet>, session: EntityId)
    ensures var own := SortNewestFirst(Filter(packets, InSession(session)));
            && SortedBy(own, Newest)
            && forall p :: p in own <==> p in packets && p.sessionId == session
  {
    FilterMembers(packets, InSession(session));
    SortPermutes(Filter(packets, InSession(session)), Newest);
    SortSorts(Filter(packets, InSession(session)), Newest);
  }

  // -- A file that changes ----------------------------------------------------------------------------------

  function PacketWithNote(note: string): Packet {
    Packet(Some(NoteOnly(note)), "c", Inbound, "p", "", Text, None, "s", 0.0, None, 0.0)
  }

  function FileWithNote(note: string): File {
    File(Metadata("1970", None, "1970", PacketsFormat, 1.0, None, "name", None), [PacketWithNote(note)], None)
  }

  lemma {:induction false} FirstStays(s: string)
    requires s != "" && !IsWhitespace(s[0])
    ensures TrimEnd(s) != "" && Trim(s) != ""
  {
    assert TrimStart(s) == s;
    if IsWhitespace(s[|s| - 1]) {
      FirstStays(s[..|s| - 1]);
    }
  }

  function NoteOnly(note: string): Annotations { Annotations(false, note, false, [], 0.0) }

  lemma NoteOnlyIsCut(note: string)
    requires NormalizeNote(note) != "" && !IsWhitespace(NormalizeNote(note)[0])
    ensures NormalizePacketAnnotations(Some(WriteAnnotations(NoteOnly(note)))) == Some(NoteOnly(NormalizeNote(note)))
  {
    WrittenAnnotationsRead(NoteOnly(note));
    FirstStays(NormalizeNote(note));
    assert NormalizeTags([]) == [];
  }

  lemma NoteIsCut(note: string)
    requires NormalizeNote(note) != "" && !IsWhitespace(NormalizeNote(note)[0])
    ensures ParsePacket(WritePacket(PacketWithNote(note))) == Ok(PacketWithNote(NormalizeNote(note)))
  {
    WrittenPacketRead(PacketWithNote(note));
    NoteFieldsChecked(note);
  }

  lemma NoteFieldsChecked(note: string)
    requires NormalizeNote(note) != "" && !IsWhitespace(NormalizeNote(note)[0])
    ensures CheckPacket(FieldsOf(PacketWithNote(note))) == Ok(PacketWithNote(NormalizeNote(note)))
  {
    EnumerationsReadBack(PacketWithNote(note));
    NoteOnlyIsCut(note);
  }

  lemma OneIsParsed<T(!new)>(item: Json, parse: Json -> Result<T>, value: T)
    requires parse(item) == Ok(value)
    ensures ParseEach([item], parse) == Ok([value])
  {
    assert [item][..|[item]| - 1] == [];
    assert ParseEach([item][..|[item]| - 1], parse) == Ok([]);
    assert [] + [value] == [value];
  }

  lemma PacketListIsCut(p: Packet, q: Packet)
    requires ParsePacket(WritePacket(p)) == Ok(q)
    ensures ParsePackets(Some(WritePackets([p]))) == Ok([q])
  {
    OneIsParsed(WritePacket(p), ParsePacket, q);
    assert Map([p], ToWritten) == [WritePacket(p)];
    SortSorted([q], Newest);
  }

  lemma MetadataIsKept(m: Metadata)
    requires m == FileWithNote("").metadata
    ensures CheckMetadata(MetadataFieldsOf(m)) == Ok(m)
  {
    assert Trimmed("name") && "name" != "" && "1970" != "";
    MetadataFieldsAreCheckedIff(m);
  }

  lemma FileIsCut(note: string)
    requires NormalizeNote(note) != "" && !IsWhitespace(NormalizeNote(note)[0])
    ensures ParseFile(WriteFile(FileWithNote(note))) == Ok(FileWithNote(NormalizeNote(note)))
  {
    NoteIsCut(note);
    PacketListIsCut(PacketWithNote(note), PacketWithNote(NormalizeNote(note)));
    ReadBack(FileWithNote(note));
    MetadataIsKept(FileWithNote(note).metadata);
  }

  /** A note whose 2,000th character is a space: the file is accepted, and what was
      read does not read back to itself. */
  lemma SomeAcceptedFileDoesNotReadBack() returns (parsed: Json)
    ensures ParseFile(parsed).Ok?
    ensures ParseFile(WriteFile(ParseFile(parsed).value)) != Ok(ParseFile(parsed).value)
  {
    var note := seq(MAX_NOTE_LENGTH + 1, i => if i == MAX_NOTE_LENGTH - 1 then ' ' else 'x');
    parsed := WriteFile(FileWithNote(note));
    TrimTrims(note);
    FileIsCut(note);
    assert PacketWithNote(NormalizeNote(note)) in ParseFile(parsed).value.packets;
    AcceptedFilesReadBackIff(parsed);
  }
}
