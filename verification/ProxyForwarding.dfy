/** Message forwarding between the two WebSockets of a proxied connection. */
module ProxyForwarding {
  import opened Sequences
  import opened Decimals
  import opened Models

  /** A WebSocket message. Text carries what the JSON and UTF-8 libraries say of it. */
  datatype Message =
    | TextMessage(text: string, isJson: bool, sizeBytes: nat)
    | BinaryMessage(bytes: seq<bv8>)
    | Ping(data: seq<bv8>)
    | Pong(data: seq<bv8>)
    | Close(reason: Option<string>)
    | RawFrame

  datatype Captured = Captured(payload: string, payloadKind: PayloadKind, sizeBytes: nat)

  const MAX_PREVIEW_BYTES := 96

  function HexDigit(n: bv8): char
    requires n < 16
  {
    "0123456789abcdef"[n as int]
  }

  function HexPreview(bytes: seq<bv8>): string {
    if bytes == [] then ""
    else
      var byte := [HexDigit(bytes[0] >> 4), HexDigit(bytes[0] & 15)];
      if |bytes| == 1 then byte else byte + " " + HexPreview(bytes[1..])
  }

  function FormatBinaryPayload(bytes: seq<bv8>): string {
    "[binary frame: " + Numeral(|bytes|) + " bytes] hex: "
    + (if |bytes| > MAX_PREVIEW_BYTES then HexPreview(bytes[..MAX_PREVIEW_BYTES]) + " ..." else HexPreview(bytes))
  }

  function ControlPayload(name: string, bytes: seq<bv8>): string {
    "{\"type\":\"" + name + "\",\"sizeBytes\":" + Numeral(|bytes|) + "}"
  }

  function PacketPayload(message: Message): Option<Captured> {
    match message
    case TextMessage(text, isJson, sizeBytes) => Some(Captured(text, if isJson then Json else Text, sizeBytes))
    case BinaryMessage(bytes) => Some(Captured(FormatBinaryPayload(bytes), Binary, |bytes|))
    case Ping(bytes) => Some(Captured(ControlPayload("ping", bytes), Json, |bytes|))
    case Pong(bytes) => Some(Captured(ControlPayload("pong", bytes), Json, |bytes|))
    case Close(_) => None
    case RawFrame => None
  }

  /** The packets captured from a sequence of messages, in order. */
  function Captures(messages: seq<Message>): seq<Captured> {
    if messages == [] then []
    else
      (match PacketPayload(messages[0]) case Some(captured) => [captured] case None => []) + Captures(messages[1..])
  }

  lemma {:induction false} CapturesAppend(messages: seq<Message>, last: Message)
    ensures Captures(messages + [last]) == Captures(messages) + Captures([last])
  {
    if messages == [] {
      assert [] + [last] == [last];
    } else {
      assert (messages + [last])[1..] == messages[1..] + [last];
      CapturesAppend(messages[1..], last);
    }
  }

  // -- One direction -----------------------------------------------------------------

  datatype Outcome = StreamEnded | CloseForwarded(reason: string) | ProxyStopped | ReadFailed | WriteFailed | Dropped

  datatype Phase = Waiting | Sending(message: Message) | SendingShutdownClose | Finished(outcome: Outcome)

  datatype Forwarder = Forwarder(
    read: seq<Message>, written: seq<Message>, captured: seq<Captured>, phase: Phase)

  const FRESH := Forwarder([], [], [], Waiting)

  const SHUTDOWN_CLOSE := Close(None)

  /** What the runtime may do to a forwarder at one of its await points. A write that
      fails or is dropped may or may not have reached the wire. */
  datatype Event =
    | ShutdownReceived
    | MessageRead(message: Message)
    | StreamEnds
    | ReadFails
    | WriteCompletes
    | WriteFails(delivered: bool)
    | Drop(delivered: bool)

  function CloseReason(message: Message): Option<string> {
    match message
    case Close(Some(reason)) => Some("Close " + reason)
    case Close(None) => Some("WebSocket close frame received.")
    case _ => None
  }

  function Capture(f: Forwarder, message: Message): Forwarder {
    match PacketPayload(message)
    case Some(captured) => f.(captured := f.captured + [captured])
    case None => f
  }

  function Finish(f: Forwarder, outcome: Outcome): Forwarder { f.(phase := Finished(outcome)) }

  function Write(f: Forwarder, message: Message, delivered: bool): Forwarder {
    if delivered then f.(written := f.written + [message]) else f
  }

  function Step(f: Forwarder, e: Event): Forwarder {
    match (f.phase, e)
    case (Waiting, ShutdownReceived) => f.(phase := SendingShutdownClose)
    case (Waiting, MessageRead(m)) => Capture(f, m).(read := f.read + [m], phase := Sending(m))
    case (Waiting, StreamEnds) => Finish(f, StreamEnded)
    case (Waiting, ReadFails) => Finish(f, ReadFailed)
    case (Waiting, Drop(_)) => Finish(f, Dropped)
    case (Sending(m), WriteCompletes) =>
      if CloseReason(m).Some? then Finish(Write(f, m, true), CloseForwarded(CloseReason(m).value))
      else Write(f, m, true).(phase := Waiting)
    case (Sending(m), WriteFails(delivered)) => Finish(Write(f, m, delivered), WriteFailed)
    case (Sending(m), Drop(delivered)) => Finish(Write(f, m, delivered), Dropped)
    case (SendingShutdownClose, WriteCompletes) => Finish(Write(f, SHUTDOWN_CLOSE, true), ProxyStopped)
    case (SendingShutdownClose, WriteFails(delivered)) => Finish(Write(f, SHUTDOWN_CLOSE, delivered), ProxyStopped)
    case (SendingShutdownClose, Drop(delivered)) => Finish(Write(f, SHUTDOWN_CLOSE, delivered), Dropped)
    case _ => f
  }

  function Run(f: Forwarder, events: seq<Event>): Forwarder
    decreases |events|
  {
    if events == [] then f else Run(Step(f, events[0]), events[1..])
  }

  lemma {:induction false} FinishedStays(f: Forwarder, events: seq<Event>)
    requires f.phase.Finished?
    ensures Run(f, events) == f
    decreases |events|
  {
    if events != [] {
      FinishedStays(f, events[1..]);
    }
  }

  /** What can end the wait in `writer.send(…).await`. */
  predicate EndsSend(e: Event) { e.WriteCompletes? || e.WriteFails? || e.Drop? }

  predicate IsSending(f: Forwarder) { f.phase.Sending? || f.phase.SendingShutdownClose? }

  lemma RunNext(f: Forwarder, script: seq<Event>, i: nat)
    requires i < |script|
    ensures Run(f, script[i..]) == Run(Step(f, script[i]), script[i + 1..])
  {
    assert script[i..][1..] == script[i + 1..];
  }

  lemma {:induction false} WaitsForSend(f: Forwarder, script: seq<Event>, i: nat, j: nat)
    requires i <= j <= |script| && IsSending(f) && forall k :: i <= k < j ==> !EndsSend(script[k])
    ensures Run(f, script[i..]) == Run(f, script[j..])
    decreases j - i
  {
    if i < j {
      RunNext(f, script, i);
      WaitsForSend(f, script, i + 1, j);
    }
  }

  /** Waits at a write: what ended it, and the rest of the script. */
  method AwaitSend(script: seq<Event>, from: nat) returns (sent: Option<Event>, next: nat)
    requires from <= |script|
    ensures from <= next <= |script|
    ensures match sent
            case None => next == |script| && forall k :: from <= k < |script| ==> !EndsSend(script[k])
            case Some(e) => from < next && script[next - 1] == e && EndsSend(e)
                            && forall k :: from <= k < next - 1 ==> !EndsSend(script[k])
  {
    next := from;
    while next < |script|
      invariant from <= next <= |script| && forall k :: from <= k < next ==> !EndsSend(script[k])
    {
      next := next + 1;
      if EndsSend(script[next - 1]) {
        return Some(script[next - 1]), next;
      }
    }
    sent := None;
  }

  /** Where a forwarder that is sending stands after the script from `i` on. */
  lemma AfterSend(f: Forwarder, script: seq<Event>, i: nat, sent: Option<Event>, next: nat)
    requires IsSending(f) && i <= next <= |script|
    requires match sent
             case None => next == |script| && forall k :: i <= k < |script| ==> !EndsSend(script[k])
             case Some(e) => i < next && script[next - 1] == e && forall k :: i <= k < next - 1 ==> !EndsSend(script[k])
    ensures Run(f, script[i..]) == match sent case None => f case Some(e) => Run(Step(f, e), script[next..])
  {
    match sent
    case None => WaitsForSend(f, script, i, |script|);
    case Some(e) =>
      WaitsForSend(f, script, i, next - 1);
      RunNext(f, script, next - 1);
  }

  predicate Delivered(e: Event)
    requires EndsSend(e)
  {
    e.WriteCompletes? || e.delivered
  }

  /** The close frame sent when the proxy stops; how that went does not matter. */
  method StopForwarding(read: seq<Message>, written: seq<Message>, captured: seq<Captured>, script: seq<Event>, i: nat)
    returns (f: Forwarder)
    requires i <= |script|
    ensures f == Run(Forwarder(read, written, captured, SendingShutdownClose), script[i..])
  {
    ghost var stopping := Forwarder(read, written, captured, SendingShutdownClose);
    var sent, next := AwaitSend(script, i);
    AfterSend(stopping, script, i, sent, next);
    if sent.None? {
      return Forwarder(read, written, captured, SendingShutdownClose);
    }
    var after := if Delivered(sent.value) then written + [SHUTDOWN_CLOSE] else written;
    f := Forwarder(read, after, captured, Finished(if sent.value.Drop? then Dropped else ProxyStopped));
    FinishedStays(f, script[next..]);
  }

  /** The loop of `forward_messages`. The script is what the runtime does; events that
      nobody waits for at that point are passed over. */
  method ForwardMessages(script: seq<Event>) returns (f: Forwarder)
    ensures f == Run(FRESH, script)
  {
    var read: seq<Message>, written: seq<Message>, captured: seq<Captured> := [], [], [];
    var i := 0;
    while i < |script|
      invariant 0 <= i <= |script|
      invariant Run(Forwarder(read, written, captured, Waiting), script[i..]) == Run(FRESH, script)
    {
      RunNext(Forwarder(read, written, captured, Waiting), script, i);
      var event := script[i];
      i := i + 1;
      if event.ShutdownReceived? {
        f := StopForwarding(read, written, captured, script, i);
        return;
      }
      if event.StreamEnds? || event.ReadFails? || event.Drop? {
        f := Forwarder(read, written, captured,
                       Finished(if event.StreamEnds? then StreamEnded
                                else if event.ReadFails? then ReadFailed else Dropped));
        FinishedStays(f, script[i..]);
        return;
      }
      if !event.MessageRead? {
        continue;
      }
      var message := event.message;
      read := read + [message];
      if PacketPayload(message).Some? {
        captured := captured + [PacketPayload(message).value];
      }
      var closeReason := CloseReason(message);
      var sent, next := AwaitSend(script, i);
      AfterSend(Forwarder(read, written, captured, Sending(message)), script, i, sent, next);
      if sent.None? {
        return Forwarder(read, written, captured, Sending(message));
      }
      i := next;
      if Delivered(sent.value) {
        written := written + [message];
      }
      if sent.value.WriteFails? || sent.value.Drop? || closeReason.Some? {
        f := Forwarder(read, written, captured,
                       Finished(if sent.value.WriteFails? then WriteFailed
                                else if sent.value.Drop? then Dropped
                                else CloseForwarded(closeReason.value)));
        FinishedStays(f, script[i..]);
        return;
      }
    }
    f := Forwarder(read, written, captured, Waiting);
  }

  predicate NoClose(messages: seq<Message>) { forall m :: m in messages ==> !m.Close? }

  /** A Close is read last or not at all. */
  predicate CloseOnlyLast(messages: seq<Message>) {
    forall i :: 0 <= i < |messages| - 1 ==> !messages[i].Close?
  }

  predicate WroteAll(f: Forwarder) { f.written == f.read }

  predicate MissedLast(f: Forwarder) { f.read != [] && f.written == f.read[..|f.read| - 1] }

  predicate AddedClose(f: Forwarder) { f.written == f.read + [SHUTDOWN_CLOSE] && NoClose(f.read) }

  ghost predicate Invariant(f: Forwarder) {
    && f.captured == Captures(f.read)
    && CloseOnlyLast(f.read)
    && match f.phase
       case Waiting => WroteAll(f) && NoClose(f.read)
       case Sending(m) => MissedLast(f) && f.read[|f.read| - 1] == m && NoClose(f.written)
       case SendingShutdownClose => WroteAll(f) && NoClose(f.read)
       case Finished(outcome) =>
         match outcome
         case StreamEnded => WroteAll(f) && NoClose(f.read)
         case ReadFailed => WroteAll(f) && NoClose(f.read)
         case CloseForwarded(_) => WroteAll(f) && f.read != [] && f.read[|f.read| - 1].Close?
         case ProxyStopped => (WroteAll(f) && NoClose(f.read)) || AddedClose(f)
         case WriteFailed => WroteAll(f) || MissedLast(f)
         case Dropped => WroteAll(f) || MissedLast(f) || AddedClose(f)
  }

  lemma ReadKeepsInvariant(f: Forwarder, m: Message)
    requires Invariant(f) && f.phase == Waiting
    ensures Invariant(Step(f, MessageRead(m)))
  {
    CapturesAppend(f.read, m);
    assert [m][1..] == [];
    assert Captures([m]) == if PacketPayload(m).Some? then [PacketPayload(m).value] else [];
    assert (f.read + [m])[..|f.read|] == f.read;
  }

  lemma SendKeepsInvariant(f: Forwarder, e: Event)
    requires Invariant(f) && f.phase.Sending?
    ensures Invariant(Step(f, e))
  {
    assert f.read == f.read[..|f.read| - 1] + [f.phase.message];
  }

  lemma StepKeepsInvariant(f: Forwarder, e: Event)
    requires Invariant(f)
    ensures Invariant(Step(f, e))
  {
    match f.phase
    case Waiting => if e.MessageRead? { ReadKeepsInvariant(f, e.message); }
    case Sending(_) => SendKeepsInvariant(f, e);
    case _ =>
  }

  lemma {:induction false} RunKeepsInvariant(f: Forwarder, events: seq<Event>)
    requires Invariant(f)
    ensures Invariant(Run(f, events))
    decreases |events|
  {
    if events != [] {
      StepKeepsInvariant(f, events[0]);
      RunKeepsInvariant(Step(f, events[0]), events[1..]);
    }
  }

  /** Written is what was read, but for at most the last message, plus at most one
      Close of the proxy's own after everything read. */
  predicate Faithful(f: Forwarder) {
    && (WroteAll(f) || MissedLast(f) || AddedClose(f))
    && f.captured == Captures(f.read)
    && CloseOnlyLast(f.read)
  }

  /** In every state of every run of one direction. */
  lemma ForwardingIsFaithful(events: seq<Event>)
    ensures Faithful(Run(FRESH, events))
    ensures var f := Run(FRESH, events);
            f.phase.Finished? && f.phase.outcome.CloseForwarded? ==> f.written == f.read
  {
    RunKeepsInvariant(FRESH, events);
  }

  // -- Both directions ---------------------------------------------------------------

  /** `select!` over the two forwarders: the first to finish decides the result, and
      the other is dropped where it stands. */
  datatype Connection = Connection(clientToTarget: Forwarder, targetToClient: Forwarder, result: Option<Outcome>)

  const CONNECTED := Connection(FRESH, FRESH, None)

  datatype Turn = Turn(clientSide: bool, event: Event, otherDelivered: bool)

  function Advance(c: Connection, t: Turn): Connection {
    if c.result.Some? || t.event.Drop? then c
    else
      var mover := Step(if t.clientSide then c.clientToTarget else c.targetToClient, t.event);
      var other := if t.clientSide then c.targetToClient else c.clientToTarget;
      var rest := if mover.phase.Finished? then Step(other, Drop(t.otherDelivered)) else other;
      Connection(if t.clientSide then mover else rest, if t.clientSide then rest else mover,
                 if mover.phase.Finished? then Some(mover.phase.outcome) else None)
  }

  function AdvanceAll(c: Connection, turns: seq<Turn>): Connection
    decreases |turns|
  {
    if turns == [] then c else AdvanceAll(Advance(c, turns[0]), turns[1..])
  }

  ghost predicate ConnectionInvariant(c: Connection) {
    && Invariant(c.clientToTarget) && Invariant(c.targetToClient)
    && match c.result
       case None => !c.clientToTarget.phase.Finished? && !c.targetToClient.phase.Finished?
       case Some(outcome) =>
         && outcome != Dropped
         && {c.clientToTarget.phase, c.targetToClient.phase} == {Finished(outcome), Finished(Dropped)}
  }

  lemma DropFinishes(f: Forwarder, delivered: bool)
    ensures Step(f, Drop(delivered)).phase.Finished?
    ensures !f.phase.Finished? ==> Step(f, Drop(delivered)).phase.outcome == Dropped
  {
  }

  lemma AdvanceKeepsInvariant(c: Connection, t: Turn)
    requires ConnectionInvariant(c)
    ensures ConnectionInvariant(Advance(c, t))
  {
    StepKeepsInvariant(c.clientToTarget, t.event);
    StepKeepsInvariant(c.targetToClient, t.event);
    StepKeepsInvariant(c.clientToTarget, Drop(t.otherDelivered));
    StepKeepsInvariant(c.targetToClient, Drop(t.otherDelivered));
    DropFinishes(c.clientToTarget, t.otherDelivered);
    DropFinishes(c.targetToClient, t.otherDelivered);
  }

  lemma {:induction false} AdvanceAllKeepsInvariant(c: Connection, turns: seq<Turn>)
    requires ConnectionInvariant(c)
    ensures ConnectionInvariant(AdvanceAll(c, turns))
    decreases |turns|
  {
    if turns != [] {
      AdvanceKeepsInvariant(c, turns[0]);
      AdvanceAllKeepsInvariant(Advance(c, turns[0]), turns[1..]);
    }
  }

  /** Both directions stay faithful under every interleaving, also when one of them
      finishes first and drops the other; the result is the finisher's. */
  lemma ProxiedConnectionIsFaithful(turns: seq<Turn>)
    ensures var c := AdvanceAll(CONNECTED, turns);
            && Faithful(c.clientToTarget) && Faithful(c.targetToClient)
            && (c.result.Some? ==>
                  {c.clientToTarget.phase, c.targetToClient.phase} == {Finished(c.result.value), Finished(Dropped)})
            && (c.result.None? ==> !c.clientToTarget.phase.Finished? && !c.targetToClient.phase.Finished?)
            && c.result != Some(Dropped)
  {
    AdvanceAllKeepsInvariant(CONNECTED, turns);
  }
}
