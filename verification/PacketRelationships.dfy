/** The relationship index over a packet list: explicit and inferred edges between
    packets, and for each packet the edges that touch it. */
module PacketRelationships {
  import opened Sequences
  import opened Strings
  import opened Models
  import opened Grouping

  datatype FieldToken = FieldToken(field: string, value: string)

  /** What the analyser reads off a payload: the first request, correlation and
      reply-to fields, all identity fields, the lower-case event name and status. */
  datatype Facts = Facts(
    requestToken: Option<FieldToken>,
    correlationToken: Option<FieldToken>,
    identityTokens: seq<FieldToken>,
    replyToken: Option<FieldToken>,
    eventName: string,
    status: string)

  /** The analyser looks at the payload and its kind, and at nothing else. */
  type Reader = (string, PayloadKind) -> Facts

  datatype Item = Item(packet: Packet, facts: Facts)

  datatype Kind = AuthFlow | ReconnectFlow | ReplaySource | RequestResponse

  datatype Reason = AuthSequence | ByCorrelationId | PingPong | ReconnectSequence | ByReplyTo | ByReplay | ByRequestId

  /** An edge is its own identity: the source's id string spells out these fields, and
      the confidence follows from the kind. */
  datatype Edge = Edge(
    field: Option<string>, kind: Kind, reason: Reason, source: EntityId, target: EntityId, value: Option<string>)

  datatype Index = Index(
    byPacketId: map<EntityId, seq<Edge>>, packetIdsWithRelations: set<EntityId>, relationships: seq<Edge>)

  const EMPTY_INDEX := Index(map[], {}, [])

  const REQUEST_ID_FIELDS := ["requestId", "request_id", "reqId", "req_id"]
  const AUTH_FLOW_WINDOW_MS := 5000.0
  const RECONNECT_FLOW_WINDOW_MS := 10000.0

  // -- Metadata ------------------------------------------------------------------------

  function ToItem(read: Reader): Packet -> Item { (p: Packet) => Item(p, read(p.payload, p.payloadKind)) }

  function Metadata(packets: seq<Packet>, read: Reader): seq<Item> {
    Map(SortOldestFirst(packets), ToItem(read))
  }

  /** `new Map(items.map(item => [id, item])).get(id)`: the last item with the id. */
  function Lookup(items: seq<Item>, id: EntityId): Option<Item> {
    if items == [] then None
    else if items[|items| - 1].packet.id == id then Some(items[|items| - 1])
    else Lookup(items[..|items| - 1], id)
  }

  function CorrelationToken(facts: Facts): Option<FieldToken> {
    if facts.requestToken.Some? then facts.requestToken else facts.correlationToken
  }

  predicate IsAuthFlow(item: Item) {
    item.facts.status == "auth" || Contains(item.facts.eventName, ".auth.") || "auth." <= item.facts.eventName
  }

  predicate IsReconnectFlow(item: Item) {
    || item.facts.status == "reconnect"
    || Contains(item.facts.eventName, "reconnect") || Contains(item.facts.eventName, "resume")
  }

  // -- Edges proposed by each rule -----------------------------------------------------

  function ReplayEdge(item: Item): seq<Edge> {
    var source := item.packet.sourcePacketId;
    if item.packet.sendSource != Some(Replay) || source.None? || source.value == "" then []
    else [Edge(Some("sourcePacketId"), ReplaySource, ByReplay, source.value, item.packet.id, Some(source.value))]
  }

  function ReplayEdges(items: seq<Item>): seq<Edge> {
    if items == [] then [] else ReplayEdges(items[..|items| - 1]) + ReplayEdge(items[|items| - 1])
  }

  datatype CorrelationKey = CorrelationKey(session: EntityId, token: FieldToken)

  function KeyOfCorrelation(item: Item): Option<CorrelationKey> {
    match CorrelationToken(item.facts)
    case None => None
    case Some(token) => Some(CorrelationKey(item.packet.sessionId, token))
  }

  function CorrelationReason(first: Item, second: Item, field: string): Reason {
    if Contains(first.facts.eventName, "ping") && Contains(second.facts.eventName, "pong") then PingPong
    else if field in REQUEST_ID_FIELDS then ByRequestId
    else ByCorrelationId
  }

  function CorrelationEdge(group: seq<Item>): seq<Edge> {
    if |group| != 2 || group[0].packet.direction == group[1].packet.direction then []
    else
      var token := if CorrelationToken(group[0].facts).Some? then CorrelationToken(group[0].facts)
                   else CorrelationToken(group[1].facts);
      match token
      case None => []
      case Some(token) =>
        [Edge(Some(token.field), RequestResponse, CorrelationReason(group[0], group[1], token.field),
              group[0].packet.id, group[1].packet.id, Some(token.value))]
  }

  function CorrelationEdges(items: seq<Item>, keys: seq<CorrelationKey>): seq<Edge> {
    if keys == [] then []
    else CorrelationEdges(items, keys[..|keys| - 1])
         + CorrelationEdge(Members(items, KeyOfCorrelation, keys[|keys| - 1]))
  }

  /** One entry per identity token of `item` with this value. */
  function Matching(item: Item, tokens: seq<FieldToken>, value: string): seq<Item> {
    if tokens == [] then []
    else Matching(item, tokens[..|tokens| - 1], value) + if tokens[|tokens| - 1].value == value then [item] else []
  }

  function IdentityMatches(items: seq<Item>, value: string): seq<Item> {
    if items == [] then []
    else
      var last := items[|items| - 1];
      IdentityMatches(items[..|items| - 1], value) + Matching(last, last.facts.identityTokens, value)
  }

  predicate HasId(items: seq<Item>, id: EntityId) { exists i :: 0 <= i < |items| && items[i].packet.id == id }

  function UniqueById(items: seq<Item>): seq<Item> {
    if items == [] then []
    else
      var before, last := UniqueById(items[..|items| - 1]), items[|items| - 1];
      if HasId(before, last.packet.id) then before else before + [last]
  }

  function NotAfter(timestamp: real): Item -> bool { (item: Item) => item.packet.timestamp <= timestamp }

  function ReplyEdge(items: seq<Item>, item: Item): seq<Edge> {
    match item.facts.replyToken
    case None => []
    case Some(token) =>
      var matches := Filter(UniqueById(IdentityMatches(items, token.value)), NotAfter(item.packet.timestamp));
      if |matches| != 1 then []
      else [Edge(Some(token.field), RequestResponse, ByReplyTo, matches[0].packet.id, item.packet.id,
                 Some(token.value))]
  }

  function ReplyEdges(items: seq<Item>, repliers: seq<Item>): seq<Edge> {
    if repliers == [] then []
    else ReplyEdges(items, repliers[..|repliers| - 1]) + ReplyEdge(items, repliers[|repliers| - 1])
  }

  datatype Sequence = Auth | Reconnect

  predicate InSequence(sequence: Sequence, item: Item) {
    match sequence case Auth => IsAuthFlow(item) case Reconnect => IsReconnectFlow(item)
  }

  function Window(sequence: Sequence): real {
    match sequence case Auth => AUTH_FLOW_WINDOW_MS case Reconnect => RECONNECT_FLOW_WINDOW_MS
  }

  function KindOf(sequence: Sequence): Kind {
    match sequence case Auth => AuthFlow case Reconnect => ReconnectFlow
  }

  function ReasonOf(sequence: Sequence): Reason {
    match sequence case Auth => AuthSequence case Reconnect => ReconnectSequence
  }

  function SessionKey(sequence: Sequence): Item -> Option<EntityId> {
    (item: Item) => if InSequence(sequence, item) then Some(item.packet.sessionId) else None
  }

  predicate Near(sequence: Sequence, previous: Item, current: Item) {
    current.packet.timestamp - previous.packet.timestamp <= Window(sequence)
  }

  function SequenceEdge(sequence: Sequence, previous: Item, current: Item): Edge {
    Edge(None, KindOf(sequence), ReasonOf(sequence), previous.packet.id, current.packet.id, None)
  }

  function Link(sequence: Sequence, previous: Item, current: Item): seq<Edge> {
    if Near(sequence, previous, current) then [SequenceEdge(sequence, previous, current)] else []
  }

  /** An edge for every pair of neighbours that are near enough. */
  function ChainEdges(sequence: Sequence, items: seq<Item>): seq<Edge> {
    if |items| < 2 then []
    else ChainEdges(sequence, items[..|items| - 1]) + Link(sequence, items[|items| - 2], items[|items| - 1])
  }

  function SequenceEdges(sequence: Sequence, items: seq<Item>, sessions: seq<EntityId>): seq<Edge> {
    if sessions == [] then []
    else SequenceEdges(sequence, items, sessions[..|sessions| - 1])
         + ChainEdges(sequence, Members(items, SessionKey(sequence), sessions[|sessions| - 1]))
  }

  /** All proposals, in the order the rules run. */
  function Drafts(items: seq<Item>): seq<Edge> {
    ReplayEdges(items)
    + CorrelationEdges(items, KeysInOrder(items, KeyOfCorrelation))
    + ReplyEdges(items, items)
    + SequenceEdges(Auth, items, KeysInOrder(items, SessionKey(Auth)))
    + SequenceEdges(Reconnect, items, KeysInOrder(items, SessionKey(Reconnect)))
  }

  // -- Accepting proposals ---------------------------------------------------------------

  predicate Acceptable(items: seq<Item>, e: Edge) {
    && e.source != e.target
    && Lookup(items, e.source).Some? && Lookup(items, e.target).Some?
    && Lookup(items, e.source).value.packet.sessionId == Lookup(items, e.target).value.packet.sessionId
  }

  function AddEdge(items: seq<Item>, edges: seq<Edge>, e: Edge): seq<Edge> {
    if Acceptable(items, e) && e !in edges then edges + [e] else edges
  }

  function AddEdges(items: seq<Item>, edges: seq<Edge>, drafts: seq<Edge>): seq<Edge> {
    if drafts == [] then edges
    else AddEdge(items, AddEdges(items, edges, drafts[..|drafts| - 1]), drafts[|drafts| - 1])
  }

  function Relationships(items: seq<Item>): seq<Edge> { AddEdges(items, [], Drafts(items)) }

  // -- The index -------------------------------------------------------------------------

  function RelatedPacketId(e: Edge, id: EntityId): EntityId { if e.source == id then e.target else e.source }

  /** Newest first; a missing packet counts as timestamp 0. */
  function RankOf(found: Option<Item>): real {
    match found case None => 0.0 case Some(item) => -item.packet.timestamp
  }

  function Rank(items: seq<Item>, id: EntityId): real { RankOf(Lookup(items, id)) }

  function RelatedKey(items: seq<Item>, id: EntityId): Edge -> real { (e: Edge) => Rank(items, RelatedPacketId(e, id)) }

  predicate Touches(e: Edge, id: EntityId) { e.source == id || e.target == id }

  function TouchesId(id: EntityId): Edge -> bool { (e: Edge) => Touches(e, id) }

  function Endpoints(edges: seq<Edge>): set<EntityId> {
    (set i | 0 <= i < |edges| :: edges[i].source) + (set i | 0 <= i < |edges| :: edges[i].target)
  }

  function Entry(items: seq<Item>, edges: seq<Edge>, id: EntityId): seq<Edge> {
    Sort(Filter(edges, TouchesId(id)), RelatedKey(items, id))
  }

  function IndexOf(items: seq<Item>, edges: seq<Edge>): Index {
    if edges == [] then EMPTY_INDEX
    else Index(map id | id in Endpoints(edges) :: Entry(items, edges, id), Endpoints(edges), edges)
  }

  function BuildIndex(packets: seq<Packet>, read: Reader): Index {
    if |packets| < 2 then EMPTY_INDEX
    else IndexOf(Metadata(packets, read), Relationships(Metadata(packets, read)))
  }
}
