/** What the relationship index says about the packets it was built from. */
module RelationshipFacts {
  import opened Sequences
  import opened Models
  import opened Grouping
  import opened PacketRelationships
  import opened RelationshipBuilder

  // -- Items and lookups -----------------------------------------------------------------

  lemma MetadataItem(packets: seq<Packet>, read: Reader, item: Item)
    requires item in Metadata(packets, read)
    ensures item.packet in packets && item == ToItem(read)(item.packet)
  {
    var sorted, items := SortOldestFirst(packets), Metadata(packets, read);
    SortPermutes(packets, Oldest);
    var i :| 0 <= i < |items| && items[i] == item;
    assert items[i] == ToItem(read)(sorted[i]) && sorted[i] in sorted;
  }

  lemma MetadataHas(packets: seq<Packet>, read: Reader, p: Packet)
    requires p in packets
    ensures ToItem(read)(p) in Metadata(packets, read)
  {
    var sorted, items := SortOldestFirst(packets), Metadata(packets, read);
    SortPermutes(packets, Oldest);
    var i :| 0 <= i < |sorted| && sorted[i] == p;
    assert items[i] == ToItem(read)(p);
  }

  lemma {:induction false} LookupFinds(items: seq<Item>, id: EntityId)
    ensures Lookup(items, id).Some? ==> Lookup(items, id).value in items && Lookup(items, id).value.packet.id == id
    ensures Lookup(items, id).None? ==> forall item :: item in items ==> item.packet.id != id
  {
    if items != [] {
      LookupFinds(items[..|items| - 1], id);
      assert items == items[..|items| - 1] + [items[|items| - 1]];
    }
  }

  /** Both ends of every accepted edge are packets of the list, in one session. */
  ghost predicate JoinsPackets(packets: seq<Packet>, e: Edge) {
    && e.source != e.target
    && exists p, q :: p in packets && q in packets && p.id == e.source && q.id == e.target && p.sessionId == q.sessionId
  }

  lemma AcceptableJoins(packets: seq<Packet>, read: Reader, e: Edge)
    requires Acceptable(Metadata(packets, read), e)
    ensures JoinsPackets(packets, e)
  {
    var items := Metadata(packets, read);
    LookupFinds(items, e.source);
    LookupFinds(items, e.target);
    MetadataItem(packets, read, Lookup(items, e.source).value);
    MetadataItem(packets, read, Lookup(items, e.target).value);
    var p, q := Lookup(items, e.source).value.packet, Lookup(items, e.target).value.packet;
    assert p in packets && q in packets;
  }

  ghost predicate SortedByOtherEnd(entry: seq<Edge>, items: seq<Item>, id: EntityId) {
    forall i, j :: 0 <= i < j < |entry| ==>
      var a, b := Lookup(items, RelatedPacketId(entry[i], id)), Lookup(items, RelatedPacketId(entry[j], id));
      a.Some? && b.Some? ==> a.value.packet.timestamp >= b.value.packet.timestamp
  }

  /** The parts of an index over `edges`. */
  ghost predicate IndexOver(items: seq<Item>, edges: seq<Edge>, index: Index) {
    && index.relationships == edges
    && index.packetIdsWithRelations == Endpoints(edges)
    && index.byPacketId.Keys == Endpoints(edges)
    && forall id :: id in index.byPacketId ==> index.byPacketId[id] == Entry(items, edges, id)
  }

  lemma EmptyIndexParts(items: seq<Item>)
    ensures IndexOver(items, [], EMPTY_INDEX)
  {
    assert Endpoints([]) == {};
  }

  lemma IndexParts(packets: seq<Packet>, read: Reader)
    ensures var items := Metadata(packets, read);
            IndexOver(items, if |packets| < 2 then [] else Relationships(items), BuildIndex(packets, read))
  {
    EmptyIndexParts(Metadata(packets, read));
  }

  lemma EdgesAreSound(packets: seq<Packet>, read: Reader)
    ensures var edges := BuildIndex(packets, read).relationships;
            NoDuplicates(edges) && forall e :: e in edges ==> JoinsPackets(packets, e)
  {
    IndexParts(packets, read);
    var items, edges := Metadata(packets, read), BuildIndex(packets, read).relationships;
    AcceptedEdges(items, Drafts(items));
    forall e | e in edges ensures JoinsPackets(packets, e) {
      AcceptableJoins(packets, read, e);
    }
  }

  /** A packet's entry: exactly the edges that touch it, newest other end first. */
  ghost predicate EntryAgrees(items: seq<Item>, index: Index, id: EntityId)
    requires id in index.byPacketId
  {
    && multiset(index.byPacketId[id]) == multiset(Filter(index.relationships, TouchesId(id)))
    && SortedByOtherEnd(index.byPacketId[id], items, id)
  }

  /** The index agrees with its edge list: edges are duplicate-free and each joins two
      different packets of one session; a packet has an entry exactly when an edge
      touches it; the entry is a permutation of the edges that touch it, ordered by
      the other end's timestamp, newest first. */
  lemma IndexAgreesWithEdges(packets: seq<Packet>, read: Reader)
    ensures var items, index := Metadata(packets, read), BuildIndex(packets, read);
            && NoDuplicates(index.relationships)
            && (forall e :: e in index.relationships ==> JoinsPackets(packets, e))
            && index.byPacketId.Keys == index.packetIdsWithRelations
            && (forall id :: id in index.byPacketId <==> exists e :: e in index.relationships && Touches(e, id))
            && forall id :: id in index.byPacketId ==> EntryAgrees(items, index, id)
  {
    var items, index := Metadata(packets, read), BuildIndex(packets, read);
    IndexParts(packets, read);
    EdgesAreSound(packets, read);
    forall id ensures id in index.byPacketId <==> exists e :: e in index.relationships && Touches(e, id) {
      EndpointsTouch(index.relationships, id);
    }
    forall id | id in index.byPacketId ensures EntryAgrees(items, index, id) {
      EntryIsSortedPermutation(items, index.relationships, id);
    }
  }

  lemma EndpointsTouch(edges: seq<Edge>, id: EntityId)
    ensures id in Endpoints(edges) <==> exists e :: e in edges && Touches(e, id)
  {
    if id in Endpoints(edges) {
      var i :| 0 <= i < |edges| && (edges[i].source == id || edges[i].target == id);
      assert edges[i] in edges && Touches(edges[i], id);
    }
    if e :| e in edges && Touches(e, id) {
      var i :| 0 <= i < |edges| && edges[i] == e;
    }
  }

  lemma EntryIsSortedPermutation(items: seq<Item>, edges: seq<Edge>, id: EntityId)
    ensures multiset(Entry(items, edges, id)) == multiset(Filter(edges, TouchesId(id)))
    ensures SortedByOtherEnd(Entry(items, edges, id), items, id)
  {
    var entry, key := Entry(items, edges, id), RelatedKey(items, id);
    SortPermutes(Filter(edges, TouchesId(id)), key);
    SortSorts(Filter(edges, TouchesId(id)), key);
    forall i, j | 0 <= i < j < |entry|
      ensures var a, b := Lookup(items, RelatedPacketId(entry[i], id)), Lookup(items, RelatedPacketId(entry[j], id));
              a.Some? && b.Some? ==> a.value.packet.timestamp >= b.value.packet.timestamp
    {
      assert key(entry[i]) <= key(entry[j]);
    }
  }

  // -- Correlation edges form a matching ----------------------------------------------------

  predicate IsCorrelation(e: Edge) { e.reason == PingPong || e.reason == ByCorrelationId || e.reason == ByRequestId }

  /** `e` joins the only two items with its token, which go in opposite directions. */
  ghost predicate Pairs(items: seq<Item>, e: Edge, k: CorrelationKey) {
    var group := Members(items, KeyOfCorrelation, k);
    && |group| == 2 && e in CorrelationEdge(group)
  }

  lemma {:induction false} ReplayReasons(items: seq<Item>)
    ensures forall e :: e in ReplayEdges(items) ==> e.reason == ByReplay && e.kind == ReplaySource
  {
    if items != [] { ReplayReasons(items[..|items| - 1]); }
  }

  lemma {:induction false} ReplyReasons(items: seq<Item>, repliers: seq<Item>)
    ensures forall e :: e in ReplyEdges(items, repliers) ==> e.reason == ByReplyTo && e.kind == RequestResponse
  {
    if repliers != [] { ReplyReasons(items, repliers[..|repliers| - 1]); }
  }

  lemma {:induction false} ChainReasons(sequence: Sequence, items: seq<Item>)
    ensures forall e :: e in ChainEdges(sequence, items) ==>
              e.reason == ReasonOf(sequence) && e.kind == KindOf(sequence)
  {
    if |items| >= 2 { ChainReasons(sequence, items[..|items| - 1]); }
  }

  lemma {:induction false} SequenceReasons(sequence: Sequence, items: seq<Item>, sessions: seq<EntityId>)
    ensures forall e :: e in SequenceEdges(sequence, items, sessions) ==>
              e.reason == ReasonOf(sequence) && e.kind == KindOf(sequence)
  {
    if sessions != [] {
      SequenceReasons(sequence, items, sessions[..|sessions| - 1]);
      ChainReasons(sequence, Members(items, SessionKey(sequence), sessions[|sessions| - 1]));
    }
  }

  lemma {:induction false} CorrelationPairs(items: seq<Item>, keys: seq<CorrelationKey>)
    ensures forall e :: e in CorrelationEdges(items, keys) <==> exists k :: k in keys && Pairs(items, e, k)
    ensures forall e :: e in CorrelationEdges(items, keys) ==> IsCorrelation(e) && e.kind == RequestResponse
  {
    if keys != [] {
      var init, last := keys[..|keys| - 1], keys[|keys| - 1];
      assert keys == init + [last];
      CorrelationPairs(items, init);
      forall e ensures e in CorrelationEdges(items, keys) <==> exists k :: k in keys && Pairs(items, e, k) {
        if e in CorrelationEdges(items, init) {
          var k :| k in init && Pairs(items, e, k);
          assert k in keys;
        } else if e in CorrelationEdge(Members(items, KeyOfCorrelation, last)) {
          assert last in keys && Pairs(items, e, last);
        }
      }
    }
  }

  lemma CorrelationDrafts(items: seq<Item>, e: Edge)
    ensures e in Drafts(items) && IsCorrelation(e) <==>
            e in CorrelationEdges(items, KeysInOrder(items, KeyOfCorrelation))
  {
    ReplayReasons(items);
    ReplyReasons(items, items);
    SequenceReasons(Auth, items, KeysInOrder(items, SessionKey(Auth)));
    SequenceReasons(Reconnect, items, KeysInOrder(items, SessionKey(Reconnect)));
    CorrelationPairs(items, KeysInOrder(items, KeyOfCorrelation));
  }

  lemma PairEnds(items: seq<Item>, e: Edge, k: CorrelationKey)
    requires Pairs(items, e, k)
    ensures var group := Members(items, KeyOfCorrelation, k);
            && group[0] in items && group[1] in items
            && KeyOfCorrelation(group[0]) == Some(k) == KeyOfCorrelation(group[1])
            && e.source == group[0].packet.id && e.target == group[1].packet.id
            && group[0].packet.direction != group[1].packet.direction
            && e.field == Some(k.token.field) && e.value == Some(k.token.value)
  {
    var group := Members(items, KeyOfCorrelation, k);
    MembersHaveKey(items, KeyOfCorrelation, k);
    assert group[0] in group && group[1] in group;
  }

  ghost predicate DistinctIds(packets: seq<Packet>) {
    forall p, q :: p in packets && q in packets && p.id == q.id ==> p == q
  }

  lemma FindKey(packets: seq<Packet>, read: Reader, e: Edge) returns (k: CorrelationKey)
    requires e in BuildIndex(packets, read).relationships && IsCorrelation(e)
    ensures Pairs(Metadata(packets, read), e, k)
  {
    var items := Metadata(packets, read);
    IndexParts(packets, read);
    AcceptedEdges(items, Drafts(items));
    assert e in Drafts(items);
    CorrelationDrafts(items, e);
    CorrelationPairs(items, KeysInOrder(items, KeyOfCorrelation));
    k :| Pairs(items, e, k);
  }

  /** `p` and `q` are the only packets with the key `k`, and `e` joins them. */
  ghost predicate JoinsPair(packets: seq<Packet>, read: Reader, e: Edge, k: CorrelationKey, p: Packet, q: Packet) {
    && p in packets && q in packets && p.id == e.source && q.id == e.target && p.direction != q.direction
    && KeyOfCorrelation(ToItem(read)(p)) == Some(k) == KeyOfCorrelation(ToItem(read)(q))
    && e.field == Some(k.token.field) && e.value == Some(k.token.value)
    && forall r :: r in packets && KeyOfCorrelation(ToItem(read)(r)) == Some(k) ==> r == p || r == q
  }

  lemma NoThirdPacket(packets: seq<Packet>, read: Reader, k: CorrelationKey, r: Packet)
    requires r in packets && KeyOfCorrelation(ToItem(read)(r)) == Some(k)
    ensures ToItem(read)(r) in Members(Metadata(packets, read), KeyOfCorrelation, k)
  {
    MetadataHas(packets, read, r);
    MembersHaveKey(Metadata(packets, read), KeyOfCorrelation, k);
  }

  lemma PairJoins(packets: seq<Packet>, read: Reader, e: Edge, k: CorrelationKey) returns (p: Packet, q: Packet)
    requires Pairs(Metadata(packets, read), e, k)
    ensures JoinsPair(packets, read, e, k, p, q)
  {
    var items := Metadata(packets, read);
    PairEnds(items, e, k);
    var group := Members(items, KeyOfCorrelation, k);
    MetadataItem(packets, read, group[0]);
    MetadataItem(packets, read, group[1]);
    p, q := group[0].packet, group[1].packet;
    forall r | r in packets && KeyOfCorrelation(ToItem(read)(r)) == Some(k) ensures r == p || r == q {
      NoThirdPacket(packets, read, k, r);
    }
  }

  /** A correlation edge joins two packets of one session with the same token and
      opposite directions, and no other packet of that session has the token. */
  lemma CorrelationEdgeMeaning(packets: seq<Packet>, read: Reader, e: Edge)
    returns (k: CorrelationKey, p: Packet, q: Packet)
    requires e in BuildIndex(packets, read).relationships && IsCorrelation(e)
    ensures JoinsPair(packets, read, e, k, p, q) && p.sessionId == q.sessionId
    ensures Pairs(Metadata(packets, read), e, k)
  {
    k := FindKey(packets, read, e);
    p, q := PairJoins(packets, read, e, k);
  }

  lemma OneEdgePerKey(items: seq<Item>, e: Edge, f: Edge, k: CorrelationKey)
    requires Pairs(items, e, k) && Pairs(items, f, k)
    ensures e == f
  {
    assert |CorrelationEdge(Members(items, KeyOfCorrelation, k))| <= 1;
  }

  lemma SharedPacketSharesKey(
    packets: seq<Packet>, read: Reader, e: Edge, f: Edge, id: EntityId,
    j: CorrelationKey, p: Packet, q: Packet, k: CorrelationKey, r: Packet, s: Packet)
    requires DistinctIds(packets) && Touches(e, id) && Touches(f, id)
    requires JoinsPair(packets, read, e, j, p, q) && JoinsPair(packets, read, f, k, r, s)
    ensures j == k
  {
    var shared := if e.source == id then p else q;
    assert shared == if f.source == id then r else s;
  }

  /** Two correlation edges that share a packet are the same edge. */
  lemma CorrelationEdgesAreAMatching(packets: seq<Packet>, read: Reader, e: Edge, f: Edge, id: EntityId)
    requires DistinctIds(packets)
    requires e in BuildIndex(packets, read).relationships && IsCorrelation(e) && Touches(e, id)
    requires f in BuildIndex(packets, read).relationships && IsCorrelation(f) && Touches(f, id)
    ensures e == f
  {
    var j, p, q := CorrelationEdgeMeaning(packets, read, e);
    var k, r, s := CorrelationEdgeMeaning(packets, read, f);
    SharedPacketSharesKey(packets, read, e, f, id, j, p, q, k, r, s);
    OneEdgePerKey(Metadata(packets, read), e, f, k);
  }

  // -- Exactly which edges there are ----------------------------------------------------------

  lemma {:induction false} ReplayMembers(items: seq<Item>, e: Edge)
    ensures e in ReplayEdges(items) <==> exists item :: item in items && e in ReplayEdge(item)
  {
    if items != [] {
      var init, last := items[..|items| - 1], items[|items| - 1];
      assert items == init + [last];
      ReplayMembers(init, e);
      if e in ReplayEdges(init) {
        var item :| item in init && e in ReplayEdge(item);
        assert item in items;
      } else if e in ReplayEdge(last) {
        assert last in items;
      }
    }
  }

  lemma {:induction false} ReplyMembers(items: seq<Item>, repliers: seq<Item>, e: Edge)
    ensures e in ReplyEdges(items, repliers) <==> exists item :: item in repliers && e in ReplyEdge(items, item)
  {
    if repliers != [] {
      var init, last := repliers[..|repliers| - 1], repliers[|repliers| - 1];
      assert repliers == init + [last];
      ReplyMembers(items, init, e);
      if e in ReplyEdges(items, init) {
        var item :| item in init && e in ReplyEdge(items, item);
        assert item in repliers;
      } else if e in ReplyEdge(items, last) {
        assert last in repliers;
      }
    }
  }

  lemma OtherDrafts(items: seq<Item>, e: Edge)
    ensures e in Drafts(items) && e.reason == ByReplay <==> e in ReplayEdges(items)
    ensures e in Drafts(items) && e.reason == ByReplyTo <==> e in ReplyEdges(items, items)
  {
    ReplayReasons(items);
    ReplyReasons(items, items);
    SequenceReasons(Auth, items, KeysInOrder(items, SessionKey(Auth)));
    SequenceReasons(Reconnect, items, KeysInOrder(items, SessionKey(Reconnect)));
    CorrelationPairs(items, KeysInOrder(items, KeyOfCorrelation));
  }

  /** The explicit edges are exactly the acceptable ones some packet or some pair of
      packets calls for. */
  lemma ExplicitEdgesExactly(items: seq<Item>, e: Edge)
    ensures e in Relationships(items) && e.reason == ByReplay <==>
            Acceptable(items, e) && exists item :: item in items && e in ReplayEdge(item)
    ensures e in Relationships(items) && e.reason == ByReplyTo <==>
            Acceptable(items, e) && exists item :: item in items && e in ReplyEdge(items, item)
    ensures e in Relationships(items) && IsCorrelation(e) <==>
            Acceptable(items, e) && exists k :: Pairs(items, e, k)
  {
    AcceptedEdges(items, Drafts(items));
    OtherDrafts(items, e);
    ReplayMembers(items, e);
    ReplyMembers(items, items, e);
    CorrelationDrafts(items, e);
    CorrelationPairs(items, KeysInOrder(items, KeyOfCorrelation));
    if k :| Pairs(items, e, k) {
      PairEnds(items, e, k);
      KeysAreComplete(items, KeyOfCorrelation);
      assert k in KeysInOrder(items, KeyOfCorrelation);
    }
  }

  lemma EveryEdgeHasARule(items: seq<Item>, e: Edge)
    requires e in Relationships(items)
    ensures e.reason == ByReplay || e.reason == ByReplyTo || IsCorrelation(e)
            || e.kind == KindOf(Auth) || e.kind == KindOf(Reconnect)
  {
    AcceptedEdges(items, Drafts(items));
    ReplayReasons(items);
    ReplyReasons(items, items);
    SequenceReasons(Auth, items, KeysInOrder(items, SessionKey(Auth)));
    SequenceReasons(Reconnect, items, KeysInOrder(items, SessionKey(Reconnect)));
    CorrelationPairs(items, KeysInOrder(items, KeyOfCorrelation));
  }

  // -- What a reply edge means -------------------------------------------------------------------

  predicate Identifies(item: Item, value: string) {
    exists i :: 0 <= i < |item.facts.identityTokens| && item.facts.identityTokens[i].value == value
  }

  lemma {:induction false} MatchingMembers(item: Item, tokens: seq<FieldToken>, value: string, x: Item)
    ensures x in Matching(item, tokens, value) <==>
            x == item && exists i :: 0 <= i < |tokens| && tokens[i].value == value
  {
    if tokens != [] {
      var init := tokens[..|tokens| - 1];
      MatchingMembers(item, init, value, x);
      if i :| 0 <= i < |init| && init[i].value == value {
        assert tokens[i].value == value;
      }
    }
  }

  lemma {:induction false} IdentityMembers(items: seq<Item>, value: string, x: Item)
    ensures x in IdentityMatches(items, value) <==> x in items && Identifies(x, value)
  {
    if items != [] {
      var init, last := items[..|items| - 1], items[|items| - 1];
      assert items == init + [last];
      IdentityMembers(init, value, x);
      MatchingMembers(last, last.facts.identityTokens, value, x);
    }
  }

  ghost predicate SameIdSameItem(items: seq<Item>) {
    forall x, y :: x in items && y in items && x.packet.id == y.packet.id ==> x == y
  }

  lemma {:induction false} UniqueMembers(items: seq<Item>)
    requires SameIdSameItem(items)
    ensures forall x :: x in UniqueById(items) <==> x in items
  {
    if items != [] {
      var init, last := items[..|items| - 1], items[|items| - 1];
      assert items == init + [last];
      UniqueMembers(init);
      var before := UniqueById(init);
      if HasId(before, last.packet.id) {
        var i :| 0 <= i < |before| && before[i].packet.id == last.packet.id;
        assert before[i] in before;
        assert before[i] == last;
      }
    }
  }

  /** The packets a reply could name: not later than it, with the value among their identities. */
  ghost predicate CouldAnswer(read: Reader, p: Packet, value: string, timestamp: real) {
    Identifies(ToItem(read)(p), value) && p.timestamp <= timestamp
  }

  /** The items the reply rule is left with. */
  function Candidates(items: seq<Item>, value: string, timestamp: real): seq<Item> {
    Filter(UniqueById(IdentityMatches(items, value)), NotAfter(timestamp))
  }

  lemma MatchesOfReply(packets: seq<Packet>, read: Reader, value: string, timestamp: real, x: Item)
    requires DistinctIds(packets)
    ensures x in Candidates(Metadata(packets, read), value, timestamp) <==>
            x in Metadata(packets, read) && CouldAnswer(read, x.packet, value, timestamp)
  {
    var items := Metadata(packets, read);
    var matches := IdentityMatches(items, value);
    forall y | y in matches ensures y in items && y.packet in packets && y == ToItem(read)(y.packet) {
      IdentityMembers(items, value, y);
      MetadataItem(packets, read, y);
    }
    UniqueMembers(matches);
    IdentityMembers(items, value, x);
    FilterMembers(UniqueById(matches), NotAfter(timestamp));
    if x in items {
      MetadataItem(packets, read, x);
    }
  }

  /** `q` names `value` as what it replies to, and `p` is the only packet it can mean. */
  ghost predicate Replies(packets: seq<Packet>, read: Reader, p: Packet, q: Packet, token: FieldToken) {
    && p in packets && q in packets && ToItem(read)(q).facts.replyToken == Some(token)
    && CouldAnswer(read, p, token.value, q.timestamp)
    && forall r :: r in packets && CouldAnswer(read, r, token.value, q.timestamp) ==> r == p
  }

  lemma OnlyMatch(packets: seq<Packet>, read: Reader, q: Packet, token: FieldToken) returns (p: Packet)
    requires DistinctIds(packets) && q in packets && ToItem(read)(q).facts.replyToken == Some(token)
    requires |Candidates(Metadata(packets, read), token.value, q.timestamp)| == 1
    ensures Replies(packets, read, p, q, token)
    ensures Candidates(Metadata(packets, read), token.value, q.timestamp) == [ToItem(read)(p)]
  {
    var items, matches := Metadata(packets, read), Candidates(Metadata(packets, read), token.value, q.timestamp);
    MatchesOfReply(packets, read, token.value, q.timestamp, matches[0]);
    MetadataItem(packets, read, matches[0]);
    p := matches[0].packet;
    forall r | r in packets && CouldAnswer(read, r, token.value, q.timestamp) ensures r == p {
      MetadataHas(packets, read, r);
      MatchesOfReply(packets, read, token.value, q.timestamp, ToItem(read)(r));
    }
  }

  lemma {:induction false} UniqueDiffer(items: seq<Item>)
    ensures NoDuplicates(UniqueById(items))
  {
    if items != [] {
      UniqueDiffer(items[..|items| - 1]);
      var before, last := UniqueById(items[..|items| - 1]), items[|items| - 1];
      if last in before {
        assert HasId(before, last.packet.id);
      }
    }
  }

  lemma {:induction false} FilterDiffers<T(!new)>(xs: seq<T>, p: T -> bool)
    requires NoDuplicates(xs)
    ensures NoDuplicates(Filter(xs, p))
  {
    if xs != [] {
      FilterDiffers(xs[1..], p);
      FilterMembers(xs[1..], p);
    }
  }

  lemma OneElement<T(!new)>(xs: seq<T>, x: T)
    requires NoDuplicates(xs) && x in xs && forall y :: y in xs ==> y == x
    ensures xs == [x]
  {
    assert xs[0] in xs && xs[|xs| - 1] in xs;
  }

  lemma ReplyHasOneMatch(packets: seq<Packet>, read: Reader, p: Packet, q: Packet, token: FieldToken)
    requires DistinctIds(packets) && Replies(packets, read, p, q, token)
    ensures Candidates(Metadata(packets, read), token.value, q.timestamp) == [ToItem(read)(p)]
  {
    var items, matches := Metadata(packets, read), Candidates(Metadata(packets, read), token.value, q.timestamp);
    UniqueDiffer(IdentityMatches(items, token.value));
    FilterDiffers(UniqueById(IdentityMatches(items, token.value)), NotAfter(q.timestamp));
    MetadataHas(packets, read, p);
    MatchesOfReply(packets, read, token.value, q.timestamp, ToItem(read)(p));
    forall x | x in matches ensures x == ToItem(read)(p) {
      MatchesOfReply(packets, read, token.value, q.timestamp, x);
      MetadataItem(packets, read, x);
    }
    OneElement(matches, ToItem(read)(p));
  }

  function ReplyEdgeBetween(p: Packet, q: Packet, token: FieldToken): Edge {
    Edge(Some(token.field), RequestResponse, ByReplyTo, p.id, q.id, Some(token.value))
  }

  lemma PacketIsFound(packets: seq<Packet>, read: Reader, p: Packet)
    requires DistinctIds(packets) && p in packets
    ensures Lookup(Metadata(packets, read), p.id) == Some(ToItem(read)(p))
  {
    var items := Metadata(packets, read);
    MetadataHas(packets, read, p);
    LookupFinds(items, p.id);
    if Lookup(items, p.id).Some? {
      MetadataItem(packets, read, Lookup(items, p.id).value);
    }
  }

  lemma FindReplier(packets: seq<Packet>, read: Reader, e: Edge) returns (q: Packet)
    requires e in BuildIndex(packets, read).relationships && e.reason == ByReplyTo
    ensures q in packets && e in ReplyEdge(Metadata(packets, read), ToItem(read)(q))
    ensures Acceptable(Metadata(packets, read), e)
  {
    var items := Metadata(packets, read);
    IndexParts(packets, read);
    ExplicitEdgesExactly(items, e);
    var item :| item in items && e in ReplyEdge(items, item);
    MetadataItem(packets, read, item);
    q := item.packet;
  }

  /** A reply edge joins a packet to the one packet, no later than it, that carries the
      identity it names; both are of one session. */
  lemma ReplyEdgeMeaning(packets: seq<Packet>, read: Reader, e: Edge)
    returns (p: Packet, q: Packet, token: FieldToken)
    requires DistinctIds(packets) && e in BuildIndex(packets, read).relationships && e.reason == ByReplyTo
    ensures Replies(packets, read, p, q, token) && p.sessionId == q.sessionId && p != q
    ensures e == ReplyEdgeBetween(p, q, token)
  {
    q := FindReplier(packets, read, e);
    token := ToItem(read)(q).facts.replyToken.value;
    p := OnlyMatch(packets, read, q, token);
    PacketIsFound(packets, read, p);
    PacketIsFound(packets, read, q);
  }

  /** And every such pair of different packets of one session is joined. */
  lemma RepliesAreJoined(packets: seq<Packet>, read: Reader, p: Packet, q: Packet, token: FieldToken)
    requires DistinctIds(packets) && Replies(packets, read, p, q, token) && p != q && p.sessionId == q.sessionId
    ensures ReplyEdgeBetween(p, q, token) in BuildIndex(packets, read).relationships
  {
    var items, e := Metadata(packets, read), ReplyEdgeBetween(p, q, token);
    PacketIsFound(packets, read, p);
    PacketIsFound(packets, read, q);
    ReplyHasOneMatch(packets, read, p, q, token);
    MetadataHas(packets, read, q);
    assert e in ReplyEdge(items, ToItem(read)(q));
    ExplicitEdgesExactly(items, e);
    IndexParts(packets, read);
  }
}
