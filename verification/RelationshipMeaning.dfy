/** What the relationship index is, said of the packets alone: exactly which two packets
    each edge joins, and why. */
module RelationshipMeaning {
  import opened Sequences
  import opened Strings
  import opened Models
  import opened Grouping
  import opened PacketRelationships
  import opened RelationshipBuilder
  import opened RelationshipFacts
  import opened FlowRuns

  // -- Time order -----------------------------------------------------------------------------

  ghost predicate BeforeAt(packets: seq<Packet>, i: nat, j: nat) {
    && i < |packets| && j < |packets|
    && (packets[i].timestamp < packets[j].timestamp || (packets[i].timestamp == packets[j].timestamp && i < j))
  }

  /** `p` comes before `q` in time; packets with one timestamp are in the order of the list. */
  ghost predicate Before(packets: seq<Packet>, p: Packet, q: Packet) {
    exists i: nat, j: nat :: BeforeAt(packets, i, j) && packets[i] == p && packets[j] == q
  }

  lemma {:induction false} BucketPositions<T(!new)>(xs: seq<T>, key: T -> real, k: real, a: nat, b: nat)
    returns (i: nat, j: nat)
    requires a < b < |Bucket(xs, key, k)|
    ensures i < j < |xs| && xs[i] == Bucket(xs, key, k)[a] && xs[j] == Bucket(xs, key, k)[b]
  {
    if key(xs[0]) != k {
      i, j := BucketPositions(xs[1..], key, k, a, b);
      i, j := i + 1, j + 1;
    } else if a > 0 {
      i, j := BucketPositions(xs[1..], key, k, a - 1, b - 1);
      i, j := i + 1, j + 1;
    } else {
      var y := Bucket(xs[1..], key, k)[b - 1];
      BucketKeys(xs[1..], key, k);
      assert y in xs[1..];
      var m :| 0 <= m < |xs[1..]| && xs[1..][m] == y;
      i, j := 0, m + 1;
    }
  }

  lemma SortedIsBefore(packets: seq<Packet>, a: nat, b: nat)
    requires a < b < |packets|
    ensures Before(packets, SortOldestFirst(packets)[a], SortOldestFirst(packets)[b])
  {
    var sorted := SortOldestFirst(packets);
    SortSorts(packets, Oldest);
    SortPermutes(packets, Oldest);
    assert Oldest(sorted[a]) <= Oldest(sorted[b]);
    if sorted[a].timestamp < sorted[b].timestamp {
      assert sorted[a] in sorted && sorted[b] in sorted;
      var i :| 0 <= i < |packets| && packets[i] == sorted[a];
      var j :| 0 <= j < |packets| && packets[j] == sorted[b];
      assert BeforeAt(packets, i, j);
    } else {
      var k := Oldest(sorted[a]);
      SortIsStable(packets, Oldest);
      var c, d := BucketKeepsOrder(sorted, Oldest, a, b);
      assert Bucket(sorted, Oldest, k) == Bucket(packets, Oldest, k);
      var i, j := BucketPositions(packets, Oldest, k, c, d);
      assert BeforeAt(packets, i, j);
    }
  }

  lemma NotBothBefore(packets: seq<Packet>, p: Packet, q: Packet)
    requires IdsDiffer(packets)
    ensures !(Before(packets, p, q) && Before(packets, q, p))
  {
  }

  /** The items stand in time order. */
  lemma ItemsInOrder(packets: seq<Packet>, read: Reader, a: nat, b: nat)
    requires IdsDiffer(packets)
    requires a < |Metadata(packets, read)| && b < |Metadata(packets, read)|
    ensures var items := Metadata(packets, read);
            a < b <==> Before(packets, items[a].packet, items[b].packet)
  {
    var items, sorted := Metadata(packets, read), SortOldestFirst(packets);
    assert items[a] == ToItem(read)(sorted[a]) && items[b] == ToItem(read)(sorted[b]);
    if a < b {
      SortedIsBefore(packets, a, b);
    } else {
      if b < a {
        SortedIsBefore(packets, b, a);
      }
      NotBothBefore(packets, sorted[a], sorted[b]);
    }
  }

  lemma PlaceOf(packets: seq<Packet>, read: Reader, p: Packet) returns (a: nat)
    requires p in packets
    ensures a < |Metadata(packets, read)| && Metadata(packets, read)[a] == ToItem(read)(p)
  {
    MetadataHas(packets, read, p);
    a :| 0 <= a < |Metadata(packets, read)| && Metadata(packets, read)[a] == ToItem(read)(p);
  }

  // -- The rules, said of packets --------------------------------------------------------------

  predicate IsReplayOf(p: Packet, q: Packet) {
    q.sendSource == Some(Replay) && q.sourcePacketId == Some(p.id) && p.id != ""
  }

  predicate ReplayJoins(p: Packet, q: Packet, e: Edge) {
    IsReplayOf(p, q) && e == Edge(Some("sourcePacketId"), ReplaySource, ByReplay, p.id, q.id, Some(p.id))
  }

  /** The token a packet is matched by: its request id, or else its correlation id. */
  predicate Carries(read: Reader, p: Packet, token: FieldToken) {
    var facts := read(p.payload, p.payloadKind);
    facts.requestToken == Some(token) || (facts.requestToken == None && facts.correlationToken == Some(token))
  }

  function EventOf(read: Reader, p: Packet): string { read(p.payload, p.payloadKind).eventName }

  predicate IsPing(read: Reader, p: Packet, q: Packet) {
    Contains(EventOf(read, p), "ping") && Contains(EventOf(read, q), "pong")
  }

  predicate IsRequestField(field: string) { field in {"requestId", "request_id", "reqId", "req_id"} }

  /** The only two packets of their session with the token, in opposite directions, from
      the earlier to the later. */
  ghost predicate PairJoins(packets: seq<Packet>, read: Reader, p: Packet, q: Packet, e: Edge, token: FieldToken) {
    && Carries(read, p, token) && Carries(read, q, token) && p.direction != q.direction && Before(packets, p, q)
    && (forall r :: r in packets && r.sessionId == p.sessionId && Carries(read, r, token) ==> r == p || r == q)
    && e.kind == RequestResponse && e.field == Some(token.field) && e.value == Some(token.value)
    && e.reason == (if IsPing(read, p, q) then PingPong
                    else if IsRequestField(token.field) then ByRequestId else ByCorrelationId)
  }

  predicate InFlow(read: Reader, sequence: Sequence, p: Packet) {
    var status, event := read(p.payload, p.payloadKind).status, EventOf(read, p);
    match sequence
    case Auth => status == "auth" || Contains(event, ".auth.") || "auth." <= event
    case Reconnect => status == "reconnect" || Contains(event, "reconnect") || Contains(event, "resume")
  }

  /** No packet of the session's flow comes between them, and they are near enough. */
  ghost predicate FlowJoins(packets: seq<Packet>, read: Reader, sequence: Sequence, p: Packet, q: Packet, e: Edge) {
    && InFlow(read, sequence, p) && InFlow(read, sequence, q) && Before(packets, p, q)
    && (forall r :: r in packets && r.sessionId == p.sessionId && InFlow(read, sequence, r) ==>
          !(Before(packets, p, r) && Before(packets, r, q)))
    && q.timestamp - p.timestamp <= (if sequence == Auth then 5000.0 else 10000.0)
    && e.kind == (if sequence == Auth then AuthFlow else ReconnectFlow)
    && e.reason == (if sequence == Auth then AuthSequence else ReconnectSequence)
    && e.field == None && e.value == None
  }

  ghost predicate ReplyJoins(packets: seq<Packet>, read: Reader, p: Packet, q: Packet, e: Edge, token: FieldToken) {
    && Replies(packets, read, p, q, token)
    && e == Edge(Some(token.field), RequestResponse, ByReplyTo, p.id, q.id, Some(token.value))
  }

  // -- Edges between found packets ----------------------------------------------------------------

  lemma AcceptableIff(packets: seq<Packet>, read: Reader, p: Packet, q: Packet, e: Edge)
    requires DistinctIds(packets) && p in packets && q in packets && e.source == p.id && e.target == q.id
    ensures Acceptable(Metadata(packets, read), e) <==> p != q && p.sessionId == q.sessionId
  {
    PacketIsFound(packets, read, p);
    PacketIsFound(packets, read, q);
  }

  lemma IndexEdges(packets: seq<Packet>, read: Reader)
    ensures BuildIndex(packets, read).relationships == Relationships(Metadata(packets, read))
  {
    IndexParts(packets, read);
    if |packets| < 2 {
      NoEdgesWithoutTwo(Metadata(packets, read));
    }
  }

  lemma IdsDifferAreDistinct(packets: seq<Packet>)
    requires IdsDiffer(packets)
    ensures DistinctIds(packets)
  {
  }

  /** The two packets of an edge. */
  ghost predicate Ends(packets: seq<Packet>, p: Packet, q: Packet, e: Edge) {
    p in packets && q in packets && p != q && p.sessionId == q.sessionId && p.id == e.source && q.id == e.target
  }

  // -- Replays --------------------------------------------------------------------------------------

  lemma ReplayOf(packets: seq<Packet>, read: Reader, e: Edge) returns (p: Packet, q: Packet)
    requires DistinctIds(packets) && e in BuildIndex(packets, read).relationships && e.reason == ByReplay
    ensures Ends(packets, p, q, e) && ReplayJoins(p, q, e)
  {
    var items := Metadata(packets, read);
    IndexEdges(packets, read);
    ExplicitEdgesExactly(items, e);
    var item :| item in items && e in ReplayEdge(item);
    MetadataItem(packets, read, item);
    EdgesAreSound(packets, read);
    q := item.packet;
    p :| p in packets && p.id == e.source && p.sessionId == q.sessionId;
  }

  lemma ReplaysAreJoined(packets: seq<Packet>, read: Reader, p: Packet, q: Packet, e: Edge)
    requires DistinctIds(packets) && Ends(packets, p, q, e) && ReplayJoins(p, q, e)
    ensures e in BuildIndex(packets, read).relationships
  {
    var items := Metadata(packets, read);
    IndexEdges(packets, read);
    MetadataHas(packets, read, q);
    AcceptableIff(packets, read, p, q, e);
    assert e in ReplayEdge(ToItem(read)(q));
    ExplicitEdgesExactly(items, e);
  }

  /** The replay edges lead exactly from a packet to a replay of it in its session. */
  lemma ReplayEdgesExactly(packets: seq<Packet>, read: Reader, e: Edge)
    requires DistinctIds(packets)
    ensures e in BuildIndex(packets, read).relationships && e.reason == ByReplay <==>
            exists p, q :: Ends(packets, p, q, e) && ReplayJoins(p, q, e)
  {
    if e in BuildIndex(packets, read).relationships && e.reason == ByReplay {
      var p, q := ReplayOf(packets, read, e);
    }
    if p, q :| Ends(packets, p, q, e) && ReplayJoins(p, q, e) {
      ReplaysAreJoined(packets, read, p, q, e);
    }
  }

  // -- Pairs ------------------------------------------------------------------------------------------

  function KeyOf(p: Packet, token: FieldToken): CorrelationKey { CorrelationKey(p.sessionId, token) }

  lemma CarriesIff(read: Reader, p: Packet, token: FieldToken)
    ensures KeyOfCorrelation(ToItem(read)(p)) == Some(KeyOf(p, token)) <==> Carries(read, p, token)
  {
  }

  lemma InGroupIff(packets: seq<Packet>, read: Reader, p: Packet, session: EntityId, token: FieldToken)
    requires p in packets
    ensures ToItem(read)(p) in Members(Metadata(packets, read), KeyOfCorrelation, CorrelationKey(session, token)) <==>
            p.sessionId == session && Carries(read, p, token)
  {
    MetadataHas(packets, read, p);
    MembersHaveKey(Metadata(packets, read), KeyOfCorrelation, CorrelationKey(session, token));
  }

  lemma EdgeOfPair(read: Reader, p: Packet, q: Packet, e: Edge, token: FieldToken)
    requires Carries(read, p, token) && Carries(read, q, token)
    ensures e in CorrelationEdge([ToItem(read)(p), ToItem(read)(q)]) <==>
            && p.direction != q.direction && e.source == p.id && e.target == q.id
            && e.kind == RequestResponse && e.field == Some(token.field) && e.value == Some(token.value)
            && e.reason == (if IsPing(read, p, q) then PingPong
                            else if IsRequestField(token.field) then ByRequestId else ByCorrelationId)
  {
  }

  lemma TheMembers(items: seq<Item>, k: CorrelationKey) returns (i: nat, j: nat)
    requires |Members(items, KeyOfCorrelation, k)| == 2
    ensures i < j < |items| && Members(items, KeyOfCorrelation, k) == [items[i], items[j]]
    ensures KeyOfCorrelation(items[i]) == Some(k) == KeyOfCorrelation(items[j])
  {
    var group := Members(items, KeyOfCorrelation, k);
    i, j := NothingBetween(items, KeyOfCorrelation, k, 0);
    MembersHaveKey(items, KeyOfCorrelation, k);
    assert group[0] in group && group[1] in group;
  }

  /** A group of two is two packets in time order and no others. */
  lemma GroupOfTwo(packets: seq<Packet>, read: Reader, k: CorrelationKey) returns (p: Packet, q: Packet)
    requires IdsDiffer(packets) && |Members(Metadata(packets, read), KeyOfCorrelation, k)| == 2
    ensures Members(Metadata(packets, read), KeyOfCorrelation, k) == [ToItem(read)(p), ToItem(read)(q)]
    ensures p in packets && q in packets && Before(packets, p, q)
    ensures p.sessionId == k.session == q.sessionId && Carries(read, p, k.token) && Carries(read, q, k.token)
  {
    var items := Metadata(packets, read);
    var i, j := TheMembers(items, k);
    ItemsInOrder(packets, read, i, j);
    MetadataItem(packets, read, items[i]);
    MetadataItem(packets, read, items[j]);
    p, q := items[i].packet, items[j].packet;
    CarriesIff(read, p, k.token);
    CarriesIff(read, q, k.token);
  }

  lemma NoOtherCarrier(packets: seq<Packet>, read: Reader, k: CorrelationKey, p: Packet, q: Packet)
    requires Members(Metadata(packets, read), KeyOfCorrelation, k) == [ToItem(read)(p), ToItem(read)(q)]
    ensures forall r :: r in packets && r.sessionId == k.session && Carries(read, r, k.token) ==> r == p || r == q
  {
    forall r | r in packets && r.sessionId == k.session && Carries(read, r, k.token) ensures r == p || r == q {
      InGroupIff(packets, read, r, k.session, k.token);
    }
  }

  lemma PairOf(packets: seq<Packet>, read: Reader, e: Edge) returns (p: Packet, q: Packet, token: FieldToken)
    requires IdsDiffer(packets) && e in BuildIndex(packets, read).relationships && IsCorrelation(e)
    ensures Ends(packets, p, q, e) && PairJoins(packets, read, p, q, e, token)
  {
    var k := FindKey(packets, read, e);
    token := k.token;
    p, q := GroupOfTwo(packets, read, k);
    NoOtherCarrier(packets, read, k, p, q);
    EdgeOfPair(read, p, q, e, token);
    NotBothBefore(packets, p, q);
  }

  lemma TwoOfKind(items: seq<Item>, group: seq<Item>, x: Item, y: Item)
    requires ItemsDiffer(group) && x != y && x in group && y in group
    requires forall z :: z in group ==> z == x || z == y
    ensures group == [x, y] || group == [y, x]
  {
    assert group[0] in group && group[|group| / 2] in group && group[|group| - 1] in group;
  }

  lemma PairIsGroup(packets: seq<Packet>, read: Reader, p: Packet, q: Packet, token: FieldToken)
    requires IdsDiffer(packets) && p in packets && q in packets && p.sessionId == q.sessionId
    requires Carries(read, p, token) && Carries(read, q, token) && Before(packets, p, q) && p != q
    requires forall r :: r in packets && r.sessionId == p.sessionId && Carries(read, r, token) ==> r == p || r == q
    ensures Members(Metadata(packets, read), KeyOfCorrelation, KeyOf(p, token)) == [ToItem(read)(p), ToItem(read)(q)]
  {
    var items, k := Metadata(packets, read), KeyOf(p, token);
    var group := Members(items, KeyOfCorrelation, k);
    MetadataDiffers(packets, read);
    MembersDiffer(items, KeyOfCorrelation, k);
    InGroupIff(packets, read, p, p.sessionId, token);
    InGroupIff(packets, read, q, p.sessionId, token);
    forall z | z in group ensures z == ToItem(read)(p) || z == ToItem(read)(q) {
      MetadataItem(packets, read, z);
      InGroupIff(packets, read, z.packet, p.sessionId, token);
    }
    TwoOfKind(items, group, ToItem(read)(p), ToItem(read)(q));
    var first, second := GroupOfTwo(packets, read, k);
    NotBothBefore(packets, p, q);
    assert group[0].packet == first;
  }

  lemma PairsAreJoined(packets: seq<Packet>, read: Reader, p: Packet, q: Packet, e: Edge, token: FieldToken)
    requires IdsDiffer(packets) && Ends(packets, p, q, e) && PairJoins(packets, read, p, q, e, token)
    ensures e in BuildIndex(packets, read).relationships && IsCorrelation(e)
  {
    var items := Metadata(packets, read);
    PairIsGroup(packets, read, p, q, token);
    EdgeOfPair(read, p, q, e, token);
    assert Pairs(items, e, KeyOf(p, token));
    AcceptableIff(packets, read, p, q, e);
    ExplicitEdgesExactly(items, e);
    IndexEdges(packets, read);
  }

  /** The correlation edges lead exactly from the earlier to the later of the only two
      packets of a session that share a token, when they go in opposite directions. */
  lemma CorrelationEdgesExactly(packets: seq<Packet>, read: Reader, e: Edge)
    requires IdsDiffer(packets)
    ensures e in BuildIndex(packets, read).relationships && IsCorrelation(e) <==>
            exists p, q, token :: Ends(packets, p, q, e) && PairJoins(packets, read, p, q, e, token)
  {
    if e in BuildIndex(packets, read).relationships && IsCorrelation(e) {
      var p, q, token := PairOf(packets, read, e);
    }
    if p, q, token :| Ends(packets, p, q, e) && PairJoins(packets, read, p, q, e, token) {
      PairsAreJoined(packets, read, p, q, e, token);
    }
  }

  // -- Flows ------------------------------------------------------------------------------------------

  lemma InFlowIff(read: Reader, sequence: Sequence, p: Packet, session: EntityId)
    ensures SessionKey(sequence)(ToItem(read)(p)) == Some(session) <==>
            InFlow(read, sequence, p) && p.sessionId == session
  {
  }

  lemma FlowOf(packets: seq<Packet>, read: Reader, sequence: Sequence, e: Edge) returns (p: Packet, q: Packet)
    requires IdsDiffer(packets) && e in BuildIndex(packets, read).relationships && e.kind == KindOf(sequence)
    ensures Ends(packets, p, q, e) && FlowJoins(packets, read, sequence, p, q, e)
  {
    var items := Metadata(packets, read);
    IndexEdges(packets, read);
    var s, m := EdgeLinksNeighbours(sequence, items, e);
    var i, j := NothingBetween(items, SessionKey(sequence), s, m);
    MembersHaveKey(items, SessionKey(sequence), s);
    var members := SessionItems(items, sequence, s);
    assert members[m] in members && members[m + 1] in members;
    p, q := items[i].packet, items[j].packet;
    NeighbourPackets(packets, read, sequence, s, i, j);
  }

  lemma NeighbourPackets(
    packets: seq<Packet>, read: Reader, sequence: Sequence, s: EntityId, i: nat, j: nat)
    requires IdsDiffer(packets) && i < j < |Metadata(packets, read)|
    requires var items, key := Metadata(packets, read), SessionKey(sequence);
             key(items[i]) == Some(s) == key(items[j]) && forall x :: i < x < j ==> key(items[x]) != Some(s)
    ensures var p, q := Metadata(packets, read)[i].packet, Metadata(packets, read)[j].packet;
            && p in packets && q in packets && p != q && p.sessionId == s == q.sessionId
            && InFlow(read, sequence, p) && InFlow(read, sequence, q) && Before(packets, p, q)
            && forall r :: r in packets && r.sessionId == s && InFlow(read, sequence, r) ==>
                 !(Before(packets, p, r) && Before(packets, r, q))
  {
    var items := Metadata(packets, read);
    MetadataDiffers(packets, read);
    MetadataItem(packets, read, items[i]);
    MetadataItem(packets, read, items[j]);
    var p, q := items[i].packet, items[j].packet;
    InFlowIff(read, sequence, p, s);
    InFlowIff(read, sequence, q, s);
    ItemsInOrder(packets, read, i, j);
    forall r | r in packets && r.sessionId == s && InFlow(read, sequence, r)
      ensures !(Before(packets, p, r) && Before(packets, r, q))
    {
      var c := PlaceOf(packets, read, r);
      InFlowIff(read, sequence, r, s);
      ItemsInOrder(packets, read, i, c);
      ItemsInOrder(packets, read, c, j);
    }
  }

  lemma FlowsAreJoined(packets: seq<Packet>, read: Reader, sequence: Sequence, p: Packet, q: Packet, e: Edge)
    requires IdsDiffer(packets) && Ends(packets, p, q, e) && FlowJoins(packets, read, sequence, p, q, e)
    ensures e in BuildIndex(packets, read).relationships && e.kind == KindOf(sequence)
  {
    var items, s := Metadata(packets, read), p.sessionId;
    var i := PlaceOf(packets, read, p);
    var j := PlaceOf(packets, read, q);
    InFlowIff(read, sequence, p, s);
    InFlowIff(read, sequence, q, s);
    ItemsInOrder(packets, read, i, j);
    forall x | i < x < j ensures SessionKey(sequence)(items[x]) != Some(s) {
      MetadataItem(packets, read, items[x]);
      InFlowIff(read, sequence, items[x].packet, s);
      ItemsInOrder(packets, read, i, x);
      ItemsInOrder(packets, read, x, j);
    }
    var m := NeighboursAcross(items, SessionKey(sequence), s, i, j);
    AcceptableIff(packets, read, p, q, e);
    assert e == SequenceEdge(sequence, items[i], items[j]);
    NeighboursAreLinked(sequence, items, s, m);
    IndexEdges(packets, read);
  }

  /** The auth (reconnect) edges lead exactly from a packet of the flow to the next one of
      its session, when that comes within 5,000 (10,000) ms. */
  lemma FlowEdgesExactly(packets: seq<Packet>, read: Reader, sequence: Sequence, e: Edge)
    requires IdsDiffer(packets)
    ensures e in BuildIndex(packets, read).relationships && e.kind == KindOf(sequence) <==>
            exists p, q :: Ends(packets, p, q, e) && FlowJoins(packets, read, sequence, p, q, e)
  {
    if e in BuildIndex(packets, read).relationships && e.kind == KindOf(sequence) {
      var p, q := FlowOf(packets, read, sequence, e);
    }
    if p, q :| Ends(packets, p, q, e) && FlowJoins(packets, read, sequence, p, q, e) {
      FlowsAreJoined(packets, read, sequence, p, q, e);
    }
  }

  // -- The whole index -----------------------------------------------------------------------------------

  /** Some rule calls for the edge. */
  ghost predicate Joins(packets: seq<Packet>, read: Reader, p: Packet, q: Packet, e: Edge) {
    || ReplayJoins(p, q, e)
    || (exists token :: PairJoins(packets, read, p, q, e, token))
    || (exists token :: ReplyJoins(packets, read, p, q, e, token))
    || FlowJoins(packets, read, Auth, p, q, e)
    || FlowJoins(packets, read, Reconnect, p, q, e)
  }

  lemma EveryEdgeJoins(packets: seq<Packet>, read: Reader, e: Edge) returns (p: Packet, q: Packet)
    requires IdsDiffer(packets) && e in BuildIndex(packets, read).relationships
    ensures Ends(packets, p, q, e) && Joins(packets, read, p, q, e)
  {
    IndexEdges(packets, read);
    EveryEdgeHasARule(Metadata(packets, read), e);
    IdsDifferAreDistinct(packets);
    if e.reason == ByReplay {
      p, q := ReplayOf(packets, read, e);
    } else if e.reason == ByReplyTo {
      var token;
      p, q, token := ReplyEdgeMeaning(packets, read, e);
      assert ReplyJoins(packets, read, p, q, e, token);
    } else if IsCorrelation(e) {
      var token;
      p, q, token := PairOf(packets, read, e);
    } else if e.kind == KindOf(Auth) {
      p, q := FlowOf(packets, read, Auth, e);
    } else {
      p, q := FlowOf(packets, read, Reconnect, e);
    }
  }

  lemma EveryJoinIsAnEdge(packets: seq<Packet>, read: Reader, p: Packet, q: Packet, e: Edge)
    requires IdsDiffer(packets) && Ends(packets, p, q, e) && Joins(packets, read, p, q, e)
    ensures e in BuildIndex(packets, read).relationships
  {
    IdsDifferAreDistinct(packets);
    if ReplayJoins(p, q, e) {
      ReplaysAreJoined(packets, read, p, q, e);
    } else if token :| PairJoins(packets, read, p, q, e, token) {
      PairsAreJoined(packets, read, p, q, e, token);
    } else if token :| ReplyJoins(packets, read, p, q, e, token) {
      RepliesAreJoined(packets, read, p, q, token);
    } else if FlowJoins(packets, read, Auth, p, q, e) {
      FlowsAreJoined(packets, read, Auth, p, q, e);
    } else {
      FlowsAreJoined(packets, read, Reconnect, p, q, e);
    }
  }

  /** The edges of the index are exactly those that some rule calls for between two
      packets of one session: no edge is missing and none is there without a reason. */
  lemma IndexIsExact(packets: seq<Packet>, read: Reader, e: Edge)
    requires IdsDiffer(packets)
    ensures e in BuildIndex(packets, read).relationships <==>
            exists p, q :: Ends(packets, p, q, e) && Joins(packets, read, p, q, e)
  {
    if e in BuildIndex(packets, read).relationships {
      var p, q := EveryEdgeJoins(packets, read, e);
    }
    if p, q :| Ends(packets, p, q, e) && Joins(packets, read, p, q, e) {
      EveryJoinIsAnEdge(packets, read, p, q, e);
    }
  }
}
