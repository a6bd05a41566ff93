/** What a captured packet shows of its message, and how a forwarder ends. */
module ProxyCaptures {
  import opened Sequences
  import opened Strings
  import opened Decimals
  import opened Models
  import opened ProxyForwarding

  // -- Reading a preview back -------------------------------------------------------------

  /** The value of a hexadecimal digit, if it is one. */
  function HexValue(c: char): Option<bv8> {
    match c
    case '0' => Some(0) case '1' => Some(1) case '2' => Some(2) case '3' => Some(3)
    case '4' => Some(4) case '5' => Some(5) case '6' => Some(6) case '7' => Some(7)
    case '8' => Some(8) case '9' => Some(9) case 'a' => Some(10) case 'b' => Some(11)
    case 'c' => Some(12) case 'd' => Some(13) case 'e' => Some(14) case 'f' => Some(15)
    case _ => None
  }

  function Byte(high: bv8, low: bv8): bv8 { (high << 4) | low }

  /** The bytes of digit pairs with a space between them, up to the first thing that is no pair. */
  function ReadPairs(text: string): seq<bv8> {
    if |text| < 2 || HexValue(text[0]).None? || HexValue(text[1]).None? then []
    else
      [Byte(HexValue(text[0]).value, HexValue(text[1]).value)]
      + if |text| > 2 && text[2] == ' ' then ReadPairs(text[3..]) else []
  }

  lemma DigitIsRead(n: bv8)
    requires n < 16
    ensures HexValue(HexDigit(n)) == Some(n) && HexDigit(n) != ' ' && HexDigit(n) != '.'
  {
  }

  lemma HalvesMakeTheByte(b: bv8)
    ensures b >> 4 < 16 && b & 15 < 16 && Byte(b >> 4, b & 15) == b
  {
  }

  lemma ReadNext(text: string, high: bv8, low: bv8)
    requires |text| >= 2 && HexValue(text[0]) == Some(high) && HexValue(text[1]) == Some(low)
    ensures ReadPairs(text) == [Byte(high, low)] + if |text| > 2 && text[2] == ' ' then ReadPairs(text[3..]) else []
  {
  }

  lemma AfterTwo(pair: string, rest: string)
    requires |pair| == 2
    ensures var text := pair + rest;
            && |text| == 2 + |rest| && text[0] == pair[0] && text[1] == pair[1]
            && (rest != "" ==> text[2] == rest[0] && text[3..] == rest[1..])
  {
  }

  lemma PairIsRead(b: bv8, rest: string)
    ensures b >> 4 < 16 && b & 15 < 16
    ensures var pair := [HexDigit(b >> 4), HexDigit(b & 15)];
            && pair[1] != '.'
            && ReadPairs(pair + rest) ==
               [b] + if rest != "" && rest[0] == ' ' then ReadPairs(rest[1..]) else []
  {
    HalvesMakeTheByte(b);
    var pair := [HexDigit(b >> 4), HexDigit(b & 15)];
    DigitIsRead(b >> 4);
    DigitIsRead(b & 15);
    AfterTwo(pair, rest);
    ReadNext(pair + rest, b >> 4, b & 15);
  }

  function Pair(b: bv8): string
    requires b >> 4 < 16 && b & 15 < 16
  {
    [HexDigit(b >> 4), HexDigit(b & 15)]
  }

  lemma LastPairIsRead(b: bv8, rest: string)
    requires rest == "" || rest == " ..."
    ensures b >> 4 < 16 && b & 15 < 16 && ReadPairs(Pair(b) + rest) == [b]
  {
    PairIsRead(b, rest);
    if rest != "" {
      assert rest[1..] == "..." && ReadPairs("...") == [];
    }
  }

  lemma NextPairIsRead(b: bv8, tail: string, rest: string)
    ensures b >> 4 < 16 && b & 15 < 16
    ensures ReadPairs(Pair(b) + " " + tail + rest) == [b] + ReadPairs(tail + rest)
  {
    PairIsRead(b, " " + tail + rest);
    Associative(Pair(b), " ", tail);
    Associative(Pair(b), " " + tail, rest);
    Associative(" ", tail, rest);
  }

  lemma PreviewUnfolds(bytes: seq<bv8>)
    requires bytes != []
    ensures bytes[0] >> 4 < 16 && bytes[0] & 15 < 16
    ensures HexPreview(bytes) ==
            if |bytes| == 1 then Pair(bytes[0]) else Pair(bytes[0]) + " " + HexPreview(bytes[1..])
    ensures bytes == [bytes[0]] + bytes[1..]
  {
    HalvesMakeTheByte(bytes[0]);
  }

  lemma {:induction false} PreviewIsReadBack(bytes: seq<bv8>, rest: string)
    requires bytes != [] && (rest == "" || rest == " ...")
    ensures ReadPairs(HexPreview(bytes) + rest) == bytes
  {
    PreviewUnfolds(bytes);
    if |bytes| == 1 {
      LastPairIsRead(bytes[0], rest);
    } else {
      PreviewIsReadBack(bytes[1..], rest);
      NextPairIsRead(bytes[0], HexPreview(bytes[1..]), rest);
    }
  }

  lemma {:induction false} NoDotAtTheEnd(bytes: seq<bv8>)
    requires bytes != []
    ensures |HexPreview(bytes)| >= 2 && HexPreview(bytes)[|HexPreview(bytes)| - 1] != '.'
  {
    PairIsRead(bytes[0], "");
    if |bytes| > 1 {
      NoDotAtTheEnd(bytes[1..]);
    }
  }

  // -- What a capture shows -------------------------------------------------------------------

  function Head(bytes: seq<bv8>): string { "[binary frame: " + Numeral(|bytes|) + " bytes] hex: " }

  /** The size, the first 96 bytes in hexadecimal, and an ellipsis exactly when there are more. */
  predicate ShowsBytes(payload: string, bytes: seq<bv8>) {
    && Head(bytes) <= payload
    && ReadPairs(payload[|Head(bytes)|..]) == (if |bytes| > 96 then bytes[..96] else bytes)
    && (|bytes| > 96 <==> EndsWith(payload, " ..."))
  }

  lemma HeadIsCutOff(head: string, preview: string)
    ensures head <= head + preview && (head + preview)[|head|..] == preview
    ensures |preview| >= 1 ==> (head + preview)[|head + preview| - 1] == preview[|preview| - 1]
    ensures |preview| >= 4 ==> (EndsWith(head + preview, " ...") <==> EndsWith(preview, " ..."))
  {
    if |preview| >= 4 {
      assert (head + preview)[|head + preview| - 4..] == preview[|preview| - 4..];
    }
  }

  lemma EllipsisEndsInADot(text: string)
    ensures EndsWith(text, " ...") ==> text[|text| - 1] == '.'
  {
    if EndsWith(text, " ...") {
      assert text[|text| - 4..][3] == text[|text| - 1];
    }
  }

  lemma ShortPreviewShows(bytes: seq<bv8>)
    requires |bytes| <= 96
    ensures ShowsBytes(FormatBinaryPayload(bytes), bytes)
  {
    var preview := HexPreview(bytes);
    HeadIsCutOff(Head(bytes), preview);
    if bytes == [] {
      assert Head(bytes) + "" == Head(bytes) && Head(bytes)[|Head(bytes)| - 1] == ' ';
    } else {
      PreviewIsReadBack(bytes, "");
      assert preview + "" == preview;
      NoDotAtTheEnd(bytes);
    }
    EllipsisEndsInADot(FormatBinaryPayload(bytes));
  }

  lemma LongPreviewShows(bytes: seq<bv8>)
    requires |bytes| > 96
    ensures ShowsBytes(FormatBinaryPayload(bytes), bytes)
  {
    var preview := HexPreview(bytes[..96]) + " ...";
    HeadIsCutOff(Head(bytes), preview);
    PreviewIsReadBack(bytes[..96], " ...");
    assert preview[|preview| - 4..] == " ...";
  }

  predicate ShowsFrame(payload: string, name: string, size: nat) {
    payload == "{\"type\":\"" + name + "\",\"sizeBytes\":" + Numeral(size) + "}"
  }

  /** The captured packet is this message's. */
  predicate Shows(message: Message, captured: Captured) {
    match message
    case TextMessage(text, isJson, size) =>
      captured.payload == text && captured.sizeBytes == size
      && (captured.payloadKind == Json <==> isJson) && (captured.payloadKind == Text <==> !isJson)
    case BinaryMessage(bytes) =>
      ShowsBytes(captured.payload, bytes) && captured.sizeBytes == |bytes| && captured.payloadKind == Binary
    case Ping(data) =>
      ShowsFrame(captured.payload, "ping", |data|) && captured.sizeBytes == |data| && captured.payloadKind == Json
    case Pong(data) =>
      ShowsFrame(captured.payload, "pong", |data|) && captured.sizeBytes == |data| && captured.payloadKind == Json
    case Close(_) => false
    case RawFrame => false
  }

  /** One captured packet for each message in order, but none for Close and raw frames. */
  predicate ShowsAll(messages: seq<Message>, captured: seq<Captured>)
    decreases |messages|
  {
    if messages == [] then captured == []
    else if messages[0].Close? || messages[0].RawFrame? then ShowsAll(messages[1..], captured)
    else captured != [] && Shows(messages[0], captured[0]) && ShowsAll(messages[1..], captured[1..])
  }

  lemma PayloadShows(message: Message)
    ensures PacketPayload(message).None? <==> message.Close? || message.RawFrame?
    ensures PacketPayload(message).Some? ==> Shows(message, PacketPayload(message).value)
  {
    if message.BinaryMessage? {
      if |message.bytes| > 96 {
        LongPreviewShows(message.bytes);
      } else {
        ShortPreviewShows(message.bytes);
      }
    }
  }

  lemma {:induction false} CapturesShow(messages: seq<Message>)
    ensures ShowsAll(messages, Captures(messages))
  {
    if messages != [] {
      PayloadShows(messages[0]);
      CapturesShow(messages[1..]);
      assert Captures(messages)[if PacketPayload(messages[0]).Some? then 1 else 0..] == Captures(messages[1..]);
    }
  }

  /** In every run, what was captured shows exactly the messages that were read. */
  lemma CapturesShowWhatWasRead(events: seq<Event>)
    ensures var f := Run(FRESH, events); ShowsAll(f.read, f.captured)
  {
    ForwardingIsFaithful(events);
    CapturesShow(Run(FRESH, events).read);
  }

  // -- How a forwarder ends ---------------------------------------------------------------------

  predicate IsOver(f: Forwarder) { f.phase.Finished? }

  /** The outcome says what happened: the step that ended the forwarder. */
  lemma WhyItEnds(f: Forwarder, e: Event)
    requires !IsOver(f) && IsOver(Step(f, e))
    ensures var outcome := Step(f, e).phase.outcome;
            && (outcome == StreamEnded <==> e == StreamEnds)
            && (outcome == ReadFailed <==> e == ReadFails)
            && (outcome == Dropped <==> e.Drop?)
            && (outcome == WriteFailed <==> e.WriteFails? && f.phase.Sending?)
            && (outcome == ProxyStopped <==> f.phase.SendingShutdownClose? && !e.Drop?)
            && (outcome.CloseForwarded? <==> e == WriteCompletes && f.phase.Sending? && f.phase.message.Close?)
            && (outcome.CloseForwarded? ==>
                  outcome.reason == match f.phase.message.reason
                                    case Some(reason) => "Close " + reason
                                    case None => "WebSocket close frame received.")
  {
  }

  /** Which step ends it: being dropped always; the end of the stream or a failed read
      while it waits for a message; a write that fails or that sent a Close. */
  lemma WhenItEnds(f: Forwarder, e: Event)
    requires !IsOver(f)
    ensures IsOver(Step(f, e)) <==>
            || e.Drop?
            || (f.phase == Waiting && (e == StreamEnds || e == ReadFails))
            || (f.phase.SendingShutdownClose? && (e == WriteCompletes || e.WriteFails?))
            || (f.phase.Sending? && (e.WriteFails? || (e == WriteCompletes && f.phase.message.Close?)))
  {
  }

  /** Only a forwarder that waits reads a message or hears of the shutdown. */
  lemma WhatItReads(f: Forwarder, e: Event)
    ensures Step(f, e).read == if f.phase == Waiting && e.MessageRead? then f.read + [e.message] else f.read
    ensures Step(f, e).phase.SendingShutdownClose? <==>
            (f.phase == Waiting && e == ShutdownReceived)
            || (f.phase.SendingShutdownClose? && !(e == WriteCompletes || e.WriteFails? || e.Drop?))
  {
  }

  // -- Which side an event is for ------------------------------------------------------------------

  /** The events of one side, without those that are not the runtime's to send. */
  function EventsOf(turns: seq<Turn>, clientSide: bool): seq<Event> {
    if turns == [] then []
    else
      var last := turns[|turns| - 1];
      EventsOf(turns[..|turns| - 1], clientSide)
      + if last.clientSide == clientSide && !last.event.Drop? then [last.event] else []
  }

  lemma {:induction false} RunLast(f: Forwarder, events: seq<Event>, e: Event)
    ensures Run(f, events + [e]) == Step(Run(f, events), e)
    decreases |events|
  {
    if events == [] {
      assert [] + [e] == [e] && [e][1..] == [];
      assert Run(Step(f, e), [e][1..]) == Step(f, e);
    } else {
      assert (events + [e])[1..] == events[1..] + [e];
      RunLast(Step(f, events[0]), events[1..], e);
    }
  }

  lemma {:induction false} AdvanceLast(c: Connection, turns: seq<Turn>, t: Turn)
    ensures AdvanceAll(c, turns + [t]) == Advance(AdvanceAll(c, turns), t)
    decreases |turns|
  {
    if turns == [] {
      assert [] + [t] == [t] && [t][1..] == [];
      assert AdvanceAll(Advance(c, t), [t][1..]) == Advance(c, t);
    } else {
      assert (turns + [t])[1..] == turns[1..] + [t];
      AdvanceLast(Advance(c, turns[0]), turns[1..], t);
    }
  }

  /** Both sides stand where their own events take them. */
  predicate OnTheirOwn(c: Connection, turns: seq<Turn>) {
    && c.clientToTarget == Run(FRESH, EventsOf(turns, true))
    && c.targetToClient == Run(FRESH, EventsOf(turns, false))
  }

  /** Dropped in the middle of what it was doing: a write under way may still arrive. */
  predicate DroppedFrom(after: Forwarder, before: Forwarder) {
    && after.phase == Finished(Dropped) && after.read == before.read && after.captured == before.captured
    && before.written <= after.written && |after.written| <= |before.written| + 1
  }

  /** After the first `n` turns one side finished by its own events, and the other was
      dropped where its own events had taken it. */
  predicate OneFinished(c: Connection, turns: seq<Turn>, n: nat) {
    && n <= |turns| && c.result.Some?
    && var client, target := Run(FRESH, EventsOf(turns[..n], true)), Run(FRESH, EventsOf(turns[..n], false));
       || (client.phase == Finished(c.result.value) && c.clientToTarget == client
           && DroppedFrom(c.targetToClient, target))
       || (target.phase == Finished(c.result.value) && c.targetToClient == target
           && DroppedFrom(c.clientToTarget, client))
  }

  lemma DropsWhereItStands(f: Forwarder, delivered: bool)
    requires !IsOver(f)
    ensures DroppedFrom(Step(f, Drop(delivered)), f)
  {
  }

  lemma EventsOfLast(turns: seq<Turn>, t: Turn, clientSide: bool)
    ensures EventsOf(turns + [t], clientSide)
            == EventsOf(turns, clientSide) + if t.clientSide == clientSide && !t.event.Drop? then [t.event] else []
  {
    assert (turns + [t])[..|turns|] == turns;
  }

  lemma AdvanceOnItsOwn(c: Connection, turns: seq<Turn>, t: Turn)
    requires c.result.None? && OnTheirOwn(c, turns)
    requires !IsOver(c.clientToTarget) && !IsOver(c.targetToClient)
    ensures var d := Advance(c, t);
            if d.result.None? then OnTheirOwn(d, turns + [t]) else OneFinished(d, turns + [t], |turns| + 1)
  {
    EventsOfLast(turns, t, true);
    EventsOfLast(turns, t, false);
    RunLast(FRESH, EventsOf(turns, t.clientSide), t.event);
    DropsWhereItStands(if t.clientSide then c.targetToClient else c.clientToTarget, t.otherDelivered);
    assert EventsOf(turns, true) + [] == EventsOf(turns, true);
    assert EventsOf(turns, false) + [] == EventsOf(turns, false);
    assert (turns + [t])[..|turns| + 1] == turns + [t];
  }

  /** In every interleaving each side goes exactly where its own events take it, until
      one of them finishes. */
  lemma {:induction false} SidesRunOnTheirOwn(turns: seq<Turn>)
    ensures var c := AdvanceAll(CONNECTED, turns);
            if c.result.None? then OnTheirOwn(c, turns) else exists n: nat :: OneFinished(c, turns, n)
  {
    if turns != [] {
      var before, t := turns[..|turns| - 1], turns[|turns| - 1];
      assert turns == before + [t];
      SidesRunOnTheirOwn(before);
      ProxiedConnectionIsFaithful(before);
      AdvanceLast(CONNECTED, before, t);
      var c := AdvanceAll(CONNECTED, before);
      if c.result.None? {
        AdvanceOnItsOwn(c, before, t);
      } else {
        var n: nat :| OneFinished(c, before, n);
        assert turns[..n] == before[..n];
        assert OneFinished(c, turns, n);
      }
    }
  }
}
