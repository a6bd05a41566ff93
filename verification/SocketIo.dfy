/** Reading Socket.IO frames (protocol revision 5 over Engine.IO packet types). */
module SocketIo {
  import opened Sequences
  import opened Strings
  import opened Decimals

  datatype EngineType = Open | Close | Ping | Pong | Message | Upgrade | Noop

  datatype PacketType = Connect | Disconnect | Event | Ack | ConnectError | BinaryEvent | BinaryAck

  datatype FrameType = NotAPacket | Unknown | Known(packetType: PacketType)

  /** The fields read from the frame's text; the ones derived from the JSON of
      `rawData` are not part of the model. */
  datatype Frame = Frame(
    ackId: Option<nat>,
    attachments: Option<nat>,
    enginePacketType: EngineType,
    namespace: string,
    packetType: FrameType,
    rawData: string)

  /** `Number.parseInt` yields the nearest double of the number the digits spell. */
  type Rounding = nat -> nat

  const MAX_EXACT: nat := 0x20_0000_0000_0000

  ghost predicate ExactBelow(nearest: Rounding) { forall n: nat :: n < MAX_EXACT ==> nearest(n) == n }

  function GetEnginePacketType(code: char): Option<EngineType> {
    match code
    case '0' => Some(Open) case '1' => Some(Close) case '2' => Some(Ping) case '3' => Some(Pong)
    case '4' => Some(Message) case '5' => Some(Upgrade) case '6' => Some(Noop) case _ => None
  }

  function GetSocketIoPacketType(code: char): Option<PacketType> {
    match code
    case '0' => Some(Connect) case '1' => Some(Disconnect) case '2' => Some(Event) case '3' => Some(Ack)
    case '4' => Some(ConnectError) case '5' => Some(BinaryEvent) case '6' => Some(BinaryAck) case _ => None
  }

  predicate IsBinary(packetType: PacketType) { packetType == BinaryEvent || packetType == BinaryAck }

  // -- Scanning --------------------------------------------------------------------------

  /** How many digits `s` starts with. */
  function DigitCount(s: string): (n: nat)
    ensures n <= |s| && AllDigits(s[..n]) && (n < |s| ==> !IsDigit(s[n]))
  {
    if s == "" || !IsDigit(s[0]) then 0
    else
      var n := DigitCount(s[1..]);
      assert s[..n + 1] == [s[0]] + s[1..][..n];
      n + 1
  }

  /** `/^(\d+)-/`: the number of digits before the dash, or 0. */
  function AttachmentDigits(s: string): (n: nat)
    ensures n < |s| || n == 0
    ensures n <= |s| && AllDigits(s[..n])
  {
    var n := DigitCount(s);
    if 0 < n < |s| && s[n] == '-' then n else 0
  }

  /** `s.indexOf(c, from)`, with `|s|` for -1. */
  function IndexOf(s: string, c: char, from: nat): (i: nat)
    requires from <= |s|
    ensures from <= i <= |s| && (i < |s| ==> s[i] == c)
    ensures forall j :: from <= j < i ==> s[j] != c
    decreases |s| - from
  {
    if from == |s| || s[from] == c then from else IndexOf(s, c, from + 1)
  }

  /** What stands before, between and after the separators of a frame. */
  datatype Pieces = Pieces(attachments: string, namespace: string, ackId: string, rawData: string)

  function Number(digits: string, nearest: Rounding): Option<nat>
    requires AllDigits(digits)
  {
    if digits == "" then None else Some(nearest(Parse(digits)))
  }

  function AfterAttachments(s: string, binary: bool): string {
    if binary && AttachmentDigits(s) > 0 then s[AttachmentDigits(s) + 1..] else s
  }

  function NamespaceOf(s: string): string {
    if s != "" && s[0] == '/' then s[..IndexOf(s, ',', 0)] else ""
  }

  function AfterNamespace(s: string): string {
    if s != "" && s[0] == '/' then
      var end := IndexOf(s, ',', 0);
      if end == |s| then "" else s[end + 1..]
    else s
  }

  function Split(s: string, binary: bool): (p: Pieces)
    ensures AllDigits(p.attachments) && AllDigits(p.ackId)
  {
    var rest := AfterAttachments(s, binary);
    var last := AfterNamespace(rest);
    Pieces(if binary then s[..AttachmentDigits(s)] else "", NamespaceOf(rest),
           last[..DigitCount(last)], last[DigitCount(last)..])
  }

  function MessageFrame(packetType: PacketType, pieces: Pieces, nearest: Rounding): Frame
    requires AllDigits(pieces.attachments) && AllDigits(pieces.ackId)
  {
    Frame(Number(pieces.ackId, nearest), Number(pieces.attachments, nearest), Message,
          if pieces.namespace == "" then "/" else pieces.namespace, Known(packetType), pieces.rawData)
  }

  function FrameOf(frame: string, nearest: Rounding): Option<Frame> {
    var value := Trim(frame);
    if value == "" then None
    else match GetEnginePacketType(value[0])
      case None => None
      case Some(Message) =>
        if |value| == 1 || GetSocketIoPacketType(value[1]).None? then
          Some(Frame(None, None, Message, "/", Unknown, value[1..]))
        else
          var packetType := GetSocketIoPacketType(value[1]).value;
          Some(MessageFrame(packetType, Split(value[2..], IsBinary(packetType)), nearest))
      case Some(engineType) => Some(Frame(None, None, engineType, "/", NotAPacket, value[1..]))
  }

  predicate LooksLikeSocketIoFrame(value: string) {
    var trimmed := Trim(value);
    if trimmed == "" then false
    else if trimmed == "2" || trimmed == "3" || "0{" <= trimmed then true
    else if trimmed[0] != '4' || |trimmed| < 2 then false
    else if !('0' <= trimmed[1] <= '6') then false
    else
      var rest := trimmed[2..];
      rest == "" || rest[0] == '/' || rest[0] == '[' || rest[0] == '{' || IsDigit(rest[0])
  }

  // -- The parser --------------------------------------------------------------------------

  method ParseSocketIoFrame(frame: string, nearest: Rounding) returns (parsed: Option<Frame>)
    ensures parsed == FrameOf(frame, nearest)
  {
    var value := Trim(frame);
    if value == "" {
      return None;
    }
    var enginePacketType := GetEnginePacketType(value[0]);
    if enginePacketType.None? {
      return None;
    }
    if enginePacketType != Some(Message) {
      return Some(Frame(None, None, enginePacketType.value, "/", NotAPacket, value[1..]));
    }
    if |value| == 1 || GetSocketIoPacketType(value[1]).None? {
      return Some(Frame(None, None, Message, "/", Unknown, value[1..]));
    }
    var packetType := GetSocketIoPacketType(value[1]).value;
    var result := ParseMessage(value, packetType, nearest);
    return Some(result);
  }

  method ParseMessage(value: string, packetType: PacketType, nearest: Rounding) returns (frame: Frame)
    requires |value| >= 2
    ensures frame == MessageFrame(packetType, Split(value[2..], IsBinary(packetType)), nearest)
  {
    var cursor := 2;
    var attachments, namespace, ackId;
    attachments, cursor := ReadAttachments(value, cursor, packetType, nearest);
    namespace, cursor := ReadNamespace(value, cursor);
    ackId, cursor := ReadAckId(value, cursor, nearest);
    frame := Frame(ackId, attachments, Message, namespace, Known(packetType), value[cursor..]);
  }

  method ReadAttachments(value: string, cursor: nat, packetType: PacketType, nearest: Rounding)
    returns (attachments: Option<nat>, next: nat)
    requires cursor <= |value|
    ensures next <= |value| && value[next..] == AfterAttachments(value[cursor..], IsBinary(packetType))
    ensures attachments == Number(Split(value[cursor..], IsBinary(packetType)).attachments, nearest)
  {
    attachments, next := None, cursor;
    if packetType == BinaryEvent || packetType == BinaryAck {
      var digits := AttachmentDigits(value[cursor..]);
      if digits > 0 {
        attachments := Some(nearest(Parse(value[cursor..][..digits])));
        next := cursor + digits + 1;
        assert value[next..] == value[cursor..][digits + 1..];
      }
    }
  }

  method ReadNamespace(value: string, cursor: nat) returns (namespace: string, next: nat)
    requires cursor <= |value|
    ensures next <= |value| && value[next..] == AfterNamespace(value[cursor..])
    ensures var piece := NamespaceOf(value[cursor..]); namespace == if piece == "" then "/" else piece
  {
    namespace, next := "/", cursor;
    if cursor < |value| && value[cursor] == '/' {
      var namespaceEnd := IndexOf(value, ',', cursor);
      IndexOfSuffix(value, ',', cursor);
      ghost var rest := value[cursor..];
      assert value[cursor..namespaceEnd] == rest[..namespaceEnd - cursor];
      namespace := value[cursor..namespaceEnd];
      if namespaceEnd == |value| {
        next := |value|;
      } else {
        next := namespaceEnd + 1;
        assert value[next..] == rest[next - cursor..];
      }
    }
  }

  method ReadAckId(value: string, cursor: nat, nearest: Rounding) returns (ackId: Option<nat>, next: nat)
    requires cursor <= |value|
    ensures var rest := value[cursor..];
            && next <= |value| && value[next..] == rest[DigitCount(rest)..]
            && ackId == Number(rest[..DigitCount(rest)], nearest)
  {
    ackId, next := None, cursor;
    var digits := DigitCount(value[cursor..]);
    if digits > 0 {
      ackId := Some(nearest(Parse(value[cursor..][..digits])));
      next := cursor + digits;
      assert value[next..] == value[cursor..][digits..];
    }
  }

  lemma IndexOfSuffix(s: string, c: char, from: nat)
    requires from <= |s|
    ensures IndexOf(s, c, from) == from + IndexOf(s[from..], c, 0)
  {
    var rest := s[from..];
    var i, j := IndexOf(s, c, from), IndexOf(rest, c, 0);
    assert i < |s| ==> rest[i - from] == c;
    assert j < |rest| ==> s[from + j] == c;
  }

  // -- Encoding ------------------------------------------------------------------------------

  /** A packet as section "Packet encoding" of the Socket.IO protocol, revision 5,
      describes it; `payload` is its JSON text. */
  datatype Packet = Packet(
    packetType: PacketType, attachments: Option<nat>, namespace: string, ackId: Option<nat>, payload: string)

  function TypeCode(packetType: PacketType): char {
    match packetType
    case Connect => '0' case Disconnect => '1' case Event => '2' case Ack => '3'
    case ConnectError => '4' case BinaryEvent => '5' case BinaryAck => '6'
  }

  function AttachmentPart(p: Packet): string { if p.attachments.Some? then Numeral(p.attachments.value) + "-" else "" }

  function NamespacePart(p: Packet): string { if p.namespace == "/" then "" else p.namespace + "," }

  function AckPart(p: Packet): string { if p.ackId.Some? then Numeral(p.ackId.value) else "" }

  /** An Engine.IO message frame holding the packet. */
  function Encode(p: Packet): string {
    "4" + [TypeCode(p.packetType)] + (AttachmentPart(p) + (NamespacePart(p) + (AckPart(p) + p.payload)))
  }

  predicate IsBracketed(s: string) {
    |s| >= 2 && (s[0] == '[' || s[0] == '{') && (s[|s| - 1] == ']' || s[|s| - 1] == '}')
  }

  predicate WellFormed(p: Packet) {
    && (p.attachments.Some? ==>
          (p.packetType == BinaryEvent || p.packetType == BinaryAck) && p.attachments.value < MAX_EXACT)
    && "/" <= p.namespace && ',' !in p.namespace
    && (p.ackId.Some? ==> p.ackId.value < MAX_EXACT)
    && (p.payload == "" || IsBracketed(p.payload))
  }

  // -- Round trip ----------------------------------------------------------------------------

  lemma {:induction false} DigitsThen(digits: string, rest: string)
    requires AllDigits(digits) && (rest != "" ==> !IsDigit(rest[0]))
    ensures DigitCount(digits + rest) == |digits|
  {
    if digits == "" {
      assert digits + rest == rest;
    } else {
      assert (digits + rest)[1..] == digits[1..] + rest;
      DigitsThen(digits[1..], rest);
    }
  }

  lemma ReadsAttachments(p: Packet, rest: string)
    requires WellFormed(p) && rest == NamespacePart(p) + (AckPart(p) + p.payload)
    ensures AfterAttachments(AttachmentPart(p) + rest, IsBinary(p.packetType)) == rest
    ensures IsBinary(p.packetType) ==>
              var s := AttachmentPart(p) + rest;
              s[..AttachmentDigits(s)] == if p.attachments.Some? then Numeral(p.attachments.value) else ""
  {
    var s := AttachmentPart(p) + rest;
    if p.attachments.Some? {
      var digits := Numeral(p.attachments.value);
      NumeralIsDigits(p.attachments.value);
      DigitsThen(digits, "-" + rest);
      assert s == digits + ("-" + rest);
      assert s[|digits|] == '-' && s[|digits| + 1..] == rest;
    } else {
      assert s == rest;
      NoDashAfterDigits(p);
    }
  }

  lemma NoDashAfterDigits(p: Packet)
    requires WellFormed(p)
    ensures AttachmentDigits(NamespacePart(p) + (AckPart(p) + p.payload)) == 0
  {
    var rest := AckPart(p) + p.payload;
    if NamespacePart(p) == "" {
      assert NamespacePart(p) + rest == rest;
      ReadsAck(p);
    } else {
      assert (NamespacePart(p) + rest)[0] == '/';
    }
  }

  lemma ReadsAck(p: Packet)
    requires WellFormed(p)
    ensures var s := AckPart(p) + p.payload;
            DigitCount(s) == |AckPart(p)| && s[..DigitCount(s)] == AckPart(p) && s[DigitCount(s)..] == p.payload
    ensures AllDigits(AckPart(p))
  {
    if p.ackId.Some? {
      NumeralIsDigits(p.ackId.value);
    }
    DigitsThen(AckPart(p), p.payload);
  }

  lemma ReadsNamespace(p: Packet, rest: string)
    requires WellFormed(p) && rest == AckPart(p) + p.payload
    ensures NamespaceOf(NamespacePart(p) + rest) == if p.namespace == "/" then "" else p.namespace
    ensures AfterNamespace(NamespacePart(p) + rest) == rest
  {
    var s := NamespacePart(p) + rest;
    if p.namespace == "/" {
      assert s == rest;
      ReadsAck(p);
      assert AckPart(p) != "" ==> rest[0] == AckPart(p)[0];
      assert AckPart(p) == "" ==> rest == p.payload;
    } else {
      var n := |p.namespace|;
      assert s[n] == ',' && s[..n] == p.namespace && s[n + 1..] == rest;
      forall j | 0 <= j < n ensures s[j] != ',' {
        assert s[j] == p.namespace[j];
      }
      assert IndexOf(s, ',', 0) == n;
    }
  }

  /** What a packet says, as a frame. */
  function AsFrame(p: Packet): Frame {
    Frame(p.ackId, p.attachments, Message, p.namespace, Known(p.packetType), p.payload)
  }

  lemma SplitOfEncoded(p: Packet)
    requires WellFormed(p)
    ensures Split(AttachmentPart(p) + (NamespacePart(p) + (AckPart(p) + p.payload)), IsBinary(p.packetType))
            == Pieces(if p.attachments.Some? then Numeral(p.attachments.value) else "",
                      if p.namespace == "/" then "" else p.namespace, AckPart(p), p.payload)
  {
    ReadsAttachments(p, NamespacePart(p) + (AckPart(p) + p.payload));
    ReadsNamespace(p, AckPart(p) + p.payload);
    ReadsAck(p);
  }

  predicate EndsWell(s: string) { s != "" ==> !IsWhitespace(s[|s| - 1]) }

  lemma EndsWellAppend(s: string, t: string)
    requires EndsWell(s) && EndsWell(t)
    ensures EndsWell(s + t)
  {
    if t == "" {
      assert s + t == s;
    } else {
      assert (s + t)[|s + t| - 1] == t[|t| - 1];
    }
  }

  lemma NumeralEndsWell(n: nat)
    ensures EndsWell(Numeral(n))
  {
    NumeralIsDigits(n);
  }

  /** An encoded packet has no white space at either end. */
  lemma EncodedIsTrimmed(p: Packet)
    requires WellFormed(p)
    ensures Trimmed(Encode(p))
  {
    if p.attachments.Some? { NumeralEndsWell(p.attachments.value); }
    if p.ackId.Some? { NumeralEndsWell(p.ackId.value); }
    EndsWellAppend(AckPart(p), p.payload);
    EndsWellAppend(NamespacePart(p), AckPart(p) + p.payload);
    EndsWellAppend(AttachmentPart(p), NamespacePart(p) + (AckPart(p) + p.payload));
    EndsWellAppend("4" + [TypeCode(p.packetType)], AttachmentPart(p) + (NamespacePart(p) + (AckPart(p) + p.payload)));
    assert Encode(p)[0] == '4';
  }

  lemma EncodedParts(p: Packet)
    ensures var value := Encode(p);
            && |value| >= 2 && value[0] == '4' && value[1] == TypeCode(p.packetType)
            && value[2..] == AttachmentPart(p) + (NamespacePart(p) + (AckPart(p) + p.payload))
  {
    var tail := AttachmentPart(p) + (NamespacePart(p) + (AckPart(p) + p.payload));
    assert Encode(p) == ['4', TypeCode(p.packetType)] + tail;
  }

  lemma ReadsBack(p: Packet, nearest: Rounding)
    requires WellFormed(p) && ExactBelow(nearest)
    ensures MessageFrame(p.packetType, Split(Encode(p)[2..], IsBinary(p.packetType)), nearest) == AsFrame(p)
  {
    EncodedParts(p);
    SplitOfEncoded(p);
    if p.ackId.Some? { ParseNumeral(p.ackId.value); }
    if p.attachments.Some? { ParseNumeral(p.attachments.value); }
  }

  lemma TailStart(p: Packet)
    requires WellFormed(p)
    ensures var tail := Encode(p)[2..];
            tail == "" || tail[0] == '/' || tail[0] == '[' || tail[0] == '{' || IsDigit(tail[0])
  {
    EncodedParts(p);
    if p.ackId.Some? { NumeralIsDigits(p.ackId.value); }
    if p.attachments.Some? { NumeralIsDigits(p.attachments.value); }
  }

  lemma TypeCodeReadsBack(packetType: PacketType)
    ensures '0' <= TypeCode(packetType) <= '6' && GetSocketIoPacketType(TypeCode(packetType)) == Some(packetType)
  {
  }

  lemma KnownFrame(text: string, packetType: PacketType, nearest: Rounding)
    requires |Trim(text)| >= 2 && Trim(text)[0] == '4' && GetSocketIoPacketType(Trim(text)[1]) == Some(packetType)
    ensures FrameOf(text, nearest)
            == Some(MessageFrame(packetType, Split(Trim(text)[2..], IsBinary(packetType)), nearest))
  {
  }

  lemma EncodedIsRecognised(p: Packet, text: string)
    requires WellFormed(p) && Trim(text) == Encode(p)
    ensures LooksLikeSocketIoFrame(text)
  {
    EncodedParts(p);
    TailStart(p);
    TypeCodeReadsBack(p.packetType);
  }

  /** Reading undoes encoding: the frame of every packet is recognised and read back
      to the packet's own fields, also with white space around it. */
  lemma ParsingUndoesEncoding(p: Packet, before: string, after: string, nearest: Rounding)
    requires WellFormed(p) && ExactBelow(nearest)
    requires AllWhitespace(before) && AllWhitespace(after)
    ensures LooksLikeSocketIoFrame(before + Encode(p) + after)
    ensures FrameOf(before + Encode(p) + after, nearest) == Some(AsFrame(p))
  {
    var text := before + Encode(p) + after;
    assert Trim(text) == Encode(p) by {
      EncodedIsTrimmed(p);
      TrimPadded(before, Encode(p), after);
    }
    EncodedIsRecognised(p, text);
    assert FrameOf(text, nearest) == Some(AsFrame(p)) by {
      assert |Encode(p)| >= 2 && Encode(p)[0] == '4' && Encode(p)[1] == TypeCode(p.packetType) by { EncodedParts(p); }
      TypeCodeReadsBack(p.packetType);
      KnownFrame(text, p.packetType, nearest);
      ReadsBack(p, nearest);
    }
  }

  // -- Any text --------------------------------------------------------------------------------

  /** The Engine.IO packet types in the order of their codes. */
  function EngineCode(engineType: EngineType): char {
    match engineType
    case Open => '0' case Close => '1' case Ping => '2' case Pong => '3'
    case Message => '4' case Upgrade => '5' case Noop => '6'
  }

  lemma EngineCodeIsRead(code: char)
    ensures GetEnginePacketType(code).Some? <==> '0' <= code <= '6'
    ensures GetEnginePacketType(code).Some? ==> EngineCode(GetEnginePacketType(code).value) == code
  {
  }

  lemma TypeCodeIsRead(code: char)
    ensures GetSocketIoPacketType(code).Some? <==> '0' <= code <= '6'
  {
  }

  /** The frame of a text that starts with this Engine.IO type. */
  lemma FrameOfType(text: string, engineType: EngineType, nearest: Rounding)
    requires Trim(text) != "" && GetEnginePacketType(Trim(text)[0]) == Some(engineType)
    ensures var value, frame := Trim(text), FrameOf(text, nearest);
            && frame.Some? && frame.value.enginePacketType == engineType
            && (engineType != Message ==> frame.value == Frame(None, None, engineType, "/", NotAPacket, value[1..]))
            && (engineType == Message && (|value| == 1 || GetSocketIoPacketType(value[1]).None?) ==>
                  frame.value == Frame(None, None, Message, "/", Unknown, value[1..]))
            && (engineType == Message && |value| > 1 && GetSocketIoPacketType(value[1]).Some? ==>
                  frame.value.packetType == Known(GetSocketIoPacketType(value[1]).value))
  {
  }

  /** A frame is read exactly when its first character is an Engine.IO type, as that type. */
  lemma EngineCodesAreRead(text: string, nearest: Rounding)
    ensures FrameOf(text, nearest).Some? <==> Trim(text) != "" && '0' <= Trim(text)[0] <= '6'
    ensures FrameOf(text, nearest).Some? ==>
              Trim(text)[0] == EngineCode(FrameOf(text, nearest).value.enginePacketType)
  {
    var value := Trim(text);
    if value != "" {
      EngineCodeIsRead(value[0]);
      if GetEnginePacketType(value[0]).Some? {
        FrameOfType(text, GetEnginePacketType(value[0]).value, nearest);
      }
    }
  }

  lemma TrimsToPacket(code: char, data: string, before: string, after: string)
    requires !IsWhitespace(code) && EndsWell(data) && AllWhitespace(before) && AllWhitespace(after)
    ensures var value := Trim(before + ([code] + data) + after);
            value == [code] + data && value[0] == code && value[1..] == data
  {
    EndsWellAppend([code], data);
    TrimPadded(before, [code] + data, after);
    assert ([code] + data)[1..] == data;
  }

  /** Only binary packets are read with a number of attachments. */
  lemma OnlyBinaryPacketsHaveAttachments(text: string, nearest: Rounding)
    requires FrameOf(text, nearest).Some? && FrameOf(text, nearest).value.attachments.Some?
    ensures FrameOf(text, nearest).value.packetType in {Known(BinaryEvent), Known(BinaryAck)}
  {
    var value := Trim(text);
    EngineCodesAreRead(text, nearest);
    EngineCodeIsRead(value[0]);
    FrameOfType(text, FrameOf(text, nearest).value.enginePacketType, nearest);
    if |value| > 1 && GetSocketIoPacketType(value[1]).Some? && value[0] == '4' {
      KnownFrame(text, GetSocketIoPacketType(value[1]).value, nearest);
    }
  }

  /** Engine.IO packets other than messages are read back to their type and data. */
  lemma EnginePacketsAreReadBack(
    engineType: EngineType, data: string, before: string, after: string, nearest: Rounding)
    requires engineType != Message && EndsWell(data) && AllWhitespace(before) && AllWhitespace(after)
    ensures FrameOf(before + ([EngineCode(engineType)] + data) + after, nearest)
            == Some(Frame(None, None, engineType, "/", NotAPacket, data))
  {
    TrimsToPacket(EngineCode(engineType), data, before, after);
    EngineCodeIsRead(EngineCode(engineType));
    FrameOfType(before + ([EngineCode(engineType)] + data) + after, engineType, nearest);
  }

  /** A message whose packet type is missing or unknown is kept whole. */
  lemma UnknownMessagesAreKept(data: string, before: string, after: string, nearest: Rounding)
    requires EndsWell(data) && AllWhitespace(before) && AllWhitespace(after)
    requires data == "" || !('0' <= data[0] <= '6')
    ensures FrameOf(before + (['4'] + data) + after, nearest) == Some(Frame(None, None, Message, "/", Unknown, data))
  {
    TrimsToPacket('4', data, before, after);
    FrameOfType(before + (['4'] + data) + after, Message, nearest);
    if data != "" {
      TypeCodeIsRead(data[0]);
    }
  }

  predicate StartsPayload(rest: string) {
    rest == "" || rest[0] == '/' || rest[0] == '[' || rest[0] == '{' || '0' <= rest[0] <= '9'
  }

  /** What is read as a frame that looks like one: a bare ping or pong, an open packet with
      an object, or a message of a known type whose rest may follow one. */
  predicate ReadsAsFrame(frame: Frame, value: string) {
    || (frame.enginePacketType in {Ping, Pong} && frame.rawData == "")
    || (frame.enginePacketType == Open && frame.rawData != "" && frame.rawData[0] == '{')
    || (frame.packetType.Known? && |value| >= 2 && StartsPayload(value[2..]))
  }

  lemma LooksIffStarts(text: string)
    ensures var value := Trim(text);
            LooksLikeSocketIoFrame(text) <==>
            || value == "2" || value == "3" || (|value| >= 2 && value[0] == '0' && value[1] == '{')
            || (|value| >= 2 && value[0] == '4' && '0' <= value[1] <= '6' && StartsPayload(value[2..]))
  {
  }

  lemma ReadsIffStarts(text: string, engineType: EngineType, nearest: Rounding)
    requires Trim(text) != "" && Trim(text)[0] == EngineCode(engineType)
    ensures var value, frame := Trim(text), FrameOf(text, nearest);
            && frame.Some?
            && (ReadsAsFrame(frame.value, value) <==>
                || value == "2" || value == "3" || (|value| >= 2 && value[0] == '0' && value[1] == '{')
                || (|value| >= 2 && value[0] == '4' && '0' <= value[1] <= '6' && StartsPayload(value[2..])))
  {
    var value := Trim(text);
    EngineCodeIsRead(value[0]);
    FrameOfType(text, engineType, nearest);
    if |value| > 1 {
      TypeCodeIsRead(value[1]);
    }
    assert value == [value[0]] + value[1..];
  }

  /** What looks like a frame is exactly what reads as one of those. */
  lemma WhatLooksLikeAFrame(text: string, nearest: Rounding)
    ensures LooksLikeSocketIoFrame(text) <==>
            FrameOf(text, nearest).Some? && ReadsAsFrame(FrameOf(text, nearest).value, Trim(text))
  {
    EngineCodesAreRead(text, nearest);
    LooksIffStarts(text);
    if FrameOf(text, nearest).Some? {
      ReadsIffStarts(text, FrameOf(text, nearest).value.enginePacketType, nearest);
    }
  }

  /** The separators the pieces were cut at: the dash after an attachment count, and the
      comma after a namespace, which may be missing only at the end of the frame. */
  function Glue(p: Pieces, comma: string): string {
    (if p.attachments == "" then "" else p.attachments + "-") + p.namespace + comma + p.ackId + p.rawData
  }

  lemma AttachmentsGlue(s: string, binary: bool)
    ensures var digits := Split(s, binary).attachments;
            s == (if digits == "" then "" else digits + "-") + AfterAttachments(s, binary)
  {
  }

  lemma NamespaceGlue(s: string) returns (comma: string)
    ensures s == NamespaceOf(s) + comma + AfterNamespace(s)
    ensures comma == "" || (comma == "," && NamespaceOf(s) != "")
    ensures comma == "" && NamespaceOf(s) != "" ==> AfterNamespace(s) == ""
  {
    comma := if NamespaceOf(s) != "" && |NamespaceOf(s)| < |s| then "," else "";
  }

  /** Cutting a frame into pieces drops nothing but the separators. */
  lemma NothingIsDropped(s: string, binary: bool) returns (comma: string)
    ensures s == Glue(Split(s, binary), comma)
    ensures comma == "" || (comma == "," && Split(s, binary).namespace != "")
    ensures var p := Split(s, binary);
            comma == "" && p.namespace != "" ==> p.ackId == "" && p.rawData == ""
  {
    var p, rest := Split(s, binary), AfterAttachments(s, binary);
    AttachmentsGlue(s, binary);
    comma := NamespaceGlue(rest);
    AckGlue(s, binary);
    Regroup(if p.attachments == "" then "" else p.attachments + "-", p.namespace, comma, p.ackId, p.rawData);
  }

  lemma AckGlue(s: string, binary: bool)
    ensures AfterNamespace(AfterAttachments(s, binary)) == Split(s, binary).ackId + Split(s, binary).rawData
  {
  }

  lemma Regroup(front: string, namespace: string, comma: string, ackId: string, rawData: string)
    ensures front + ((namespace + comma) + (ackId + rawData)) == front + namespace + comma + ackId + rawData
  {
    Associative(front, namespace + comma, ackId + rawData);
    Associative(front, namespace, comma);
    Associative(front + namespace + comma, ackId, rawData);
  }
}
