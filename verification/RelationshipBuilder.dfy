/** Building the relationship index with the maps, sets and pushes of the source,
    proved equal to its definition in `PacketRelationships`. */
module RelationshipBuilder {
  import opened Sequences
  import opened Models
  import opened Grouping
  import opened PacketRelationships

  lemma {:induction false} AddEdgesAppend(items: seq<Item>, edges: seq<Edge>, first: seq<Edge>, second: seq<Edge>)
    ensures AddEdges(items, edges, first + second) == AddEdges(items, AddEdges(items, edges, first), second)
    decreases |second|
  {
    if second == [] {
      assert first + second == first;
    } else {
      assert (first + second)[..|first + second| - 1] == first + second[..|second| - 1];
      AddEdgesAppend(items, edges, first, second[..|second| - 1]);
    }
  }

  lemma AddNoneOrOne(items: seq<Item>, edges: seq<Edge>, drafts: seq<Edge>, more: seq<Edge>)
    requires |more| <= 1
    ensures AddEdges(items, edges, drafts + more)
            == if more == [] then AddEdges(items, edges, drafts)
               else AddEdge(items, AddEdges(items, edges, drafts), more[0])
  {
    AddEdgesAppend(items, edges, drafts, more);
    if more != [] {
      assert more[..0] == [];
    }
  }

  /** `after` is `before` with `item` pushed once for each of `tokens`. */
  ghost predicate Pushed(
    before: map<string, seq<Item>>, after: map<string, seq<Item>>, item: Item, tokens: seq<FieldToken>) {
    forall v :: Get(after, v) == Get(before, v) + Matching(item, tokens, v)
  }

  lemma PushNext(
    before: map<string, seq<Item>>, after: map<string, seq<Item>>, item: Item, tokens: seq<FieldToken>, j: nat)
    requires j < |tokens| && Pushed(before, after, item, tokens[..j])
    ensures Pushed(before, Push(after, tokens[j].value, item), item, tokens[..j + 1])
  {
    var next := Push(after, tokens[j].value, item);
    forall v ensures Get(next, v) == Get(before, v) + Matching(item, tokens[..j + 1], v) {
      assert Get(after, v) == Get(before, v) + Matching(item, tokens[..j], v);
      PushNextAt(Get(before, v), after, item, tokens, j, v);
    }
  }

  lemma PushNextAt(
    start: seq<Item>, after: map<string, seq<Item>>, item: Item, tokens: seq<FieldToken>, j: nat, v: string)
    requires j < |tokens| && Get(after, v) == start + Matching(item, tokens[..j], v)
    ensures Get(Push(after, tokens[j].value, item), v) == start + Matching(item, tokens[..j + 1], v)
  {
    MatchingGrows(item, tokens, j, v);
    GetPush(after, tokens[j].value, item, v);
    Associative(start, Matching(item, tokens[..j], v), [item]);
  }

  lemma MatchingGrows(item: Item, tokens: seq<FieldToken>, j: nat, v: string)
    requires j < |tokens|
    ensures Matching(item, tokens[..j + 1], v)
            == if v == tokens[j].value then Matching(item, tokens[..j], v) + [item] else Matching(item, tokens[..j], v)
  {
    assert tokens[..j + 1][..j] == tokens[..j];
  }

  /** The edges between the first `index` items. */
  function ChainSoFar(sequence: Sequence, items: seq<Item>, index: nat): seq<Edge> {
    ChainEdges(sequence, if index <= |items| then items[..index] else [])
  }

  lemma ChainGrows(sequence: Sequence, items: seq<Item>, index: nat)
    requires 1 <= index < |items|
    ensures ChainSoFar(sequence, items, index + 1)
            == ChainSoFar(sequence, items, index) + Link(sequence, items[index - 1], items[index])
  {
    assert items[..index + 1][..index] == items[..index];
  }

  lemma SequenceGrows(sequence: Sequence, items: seq<Item>, order: seq<EntityId>, i: nat)
    requires i < |order|
    ensures SequenceEdges(sequence, items, order[..i + 1])
            == SequenceEdges(sequence, items, order[..i])
               + ChainEdges(sequence, Members(items, SessionKey(sequence), order[i]))
  {
    assert order[..i + 1][..i] == order[..i];
  }

  lemma CorrelationGrows(items: seq<Item>, order: seq<CorrelationKey>, i: nat)
    requires i < |order|
    ensures CorrelationEdges(items, order[..i + 1])
            == CorrelationEdges(items, order[..i]) + CorrelationEdge(Members(items, KeyOfCorrelation, order[i]))
  {
    assert order[..i + 1][..i] == order[..i];
  }

  lemma WholeChain(sequence: Sequence, items: seq<Item>, index: nat)
    requires 1 <= index && (if items == [] then index >= 1 else index == |items|)
    ensures ChainSoFar(sequence, items, index) == ChainEdges(sequence, items)
  {
    assert items != [] ==> items[..index] == items;
  }

  class Builder {
    const items: seq<Item>
    var packetById: map<EntityId, Item>
    var relationships: seq<Edge>
    var seenRelationshipIds: set<Edge>

    ghost predicate Valid()
      reads this
    {
      && (forall id :: Lookup(items, id) == if id in packetById then Some(packetById[id]) else None)
      && (forall e :: e in seenRelationshipIds <==> e in relationships)
    }

    constructor (items: seq<Item>)
      ensures Valid() && this.items == items && relationships == []
    {
      this.items := items;
      packetById, relationships, seenRelationshipIds := map[], [], {};
      new;
      for i := 0 to |items|
        invariant relationships == [] && seenRelationshipIds == {}
        invariant forall id :: Lookup(items[..i], id) == if id in packetById then Some(packetById[id]) else None
      {
        assert items[..i + 1][..i] == items[..i];
        packetById := packetById[items[i].packet.id := items[i]];
      }
      assert items[..|items|] == items;
    }

    method AddRelationship(e: Edge)
      requires Valid()
      modifies this`relationships, this`seenRelationshipIds
      ensures Valid() && relationships == AddEdge(items, old(relationships), e)
    {
      if e.source == e.target {
        return;
      }
      if e.source !in packetById || e.target !in packetById
         || packetById[e.source].packet.sessionId != packetById[e.target].packet.sessionId
      {
        return;
      }
      if e in seenRelationshipIds {
        return;
      }
      seenRelationshipIds := seenRelationshipIds + {e};
      relationships := relationships + [e];
    }

    method AddReplayRelationships()
      requires Valid()
      modifies this`relationships, this`seenRelationshipIds
      ensures Valid() && relationships == AddEdges(items, old(relationships), ReplayEdges(items))
    {
      for i := 0 to |items|
        invariant Valid()
        invariant relationships == AddEdges(items, old(relationships), ReplayEdges(items[..i]))
      {
        assert items[..i + 1][..i] == items[..i];
        AddNoneOrOne(items, old(relationships), ReplayEdges(items[..i]), ReplayEdge(items[i]));
        var source := items[i].packet.sourcePacketId;
        if items[i].packet.sendSource == Some(Replay) && source.Some? && source.value != "" {
          AddRelationship(Edge(Some("sourcePacketId"), ReplaySource, ByReplay, source.value, items[i].packet.id,
                               Some(source.value)));
        }
      }
      assert items[..|items|] == items;
    }

    method AddExplicitCorrelationRelationships()
      requires Valid()
      modifies this`relationships, this`seenRelationshipIds
      ensures Valid()
      ensures relationships ==
              AddEdges(items, old(relationships), CorrelationEdges(items, KeysInOrder(items, KeyOfCorrelation)))
    {
      var order, groups := GroupBy(items, KeyOfCorrelation);
      for i := 0 to |order|
        invariant Valid()
        invariant relationships == AddEdges(items, old(relationships), CorrelationEdges(items, order[..i]))
      {
        assert order[i] in order;
        CorrelationGrows(items, order, i);
        AddCorrelation(groups[order[i]]);
        AddEdgesAppend(items, old(relationships), CorrelationEdges(items, order[..i]),
                       CorrelationEdge(groups[order[i]]));
      }
      assert order[..|order|] == order;
    }

    /** The body of the loop over the groups. */
    method AddCorrelation(group: seq<Item>)
      requires Valid()
      modifies this`relationships, this`seenRelationshipIds
      ensures Valid() && relationships == AddEdges(items, old(relationships), CorrelationEdge(group))
    {
      AddNoneOrOne(items, relationships, [], CorrelationEdge(group));
      assert [] + CorrelationEdge(group) == CorrelationEdge(group);
      if |group| != 2 {
        return;
      }
      var first, second := group[0], group[1];
      if first.packet.direction == second.packet.direction {
        return;
      }
      var token := if CorrelationToken(first.facts).Some? then CorrelationToken(first.facts)
                   else CorrelationToken(second.facts);
      if token.Some? {
        AddRelationship(Edge(Some(token.value.field), RequestResponse,
                             CorrelationReason(first, second, token.value.field),
                             first.packet.id, second.packet.id, Some(token.value.value)));
      }
    }

    /** The identity map: every item is pushed once for each of its identity tokens. */
    method CollectIdentities() returns (identityMap: map<string, seq<Item>>)
      ensures forall v :: Get(identityMap, v) == IdentityMatches(items, v)
    {
      identityMap := map[];
      for i := 0 to |items|
        invariant forall v :: Get(identityMap, v) == IdentityMatches(items[..i], v)
      {
        assert items[..i + 1][..i] == items[..i];
        identityMap := PushIdentities(identityMap, items[i]);
      }
      assert items[..|items|] == items;
    }

    static method PushIdentities(before: map<string, seq<Item>>, item: Item)
      returns (identityMap: map<string, seq<Item>>)
      ensures Pushed(before, identityMap, item, item.facts.identityTokens)
    {
      identityMap := before;
      var tokens := item.facts.identityTokens;
      for j := 0 to |tokens|
        invariant Pushed(before, identityMap, item, tokens[..j])
      {
        PushNext(before, identityMap, item, tokens, j);
        identityMap := Push(identityMap, tokens[j].value, item);
      }
      assert tokens[..|tokens|] == tokens;
    }

    static method UniqueMetadata(matches: seq<Item>) returns (unique: seq<Item>)
      ensures unique == UniqueById(matches)
    {
      var seenPacketIds: set<EntityId> := {};
      unique := [];
      for i := 0 to |matches|
        invariant unique == UniqueById(matches[..i])
        invariant forall id :: id in seenPacketIds <==> HasId(unique, id)
      {
        assert matches[..i + 1][..i] == matches[..i];
        var id := matches[i].packet.id;
        if id !in seenPacketIds {
          seenPacketIds := seenPacketIds + {id};
          ghost var before := unique;
          unique := unique + [matches[i]];
          assert unique[|before|].packet.id == id;
          assert forall k :: 0 <= k < |before| ==> unique[k] == before[k];
        }
      }
      assert matches[..|matches|] == matches;
    }

    method AddReplyTo(item: Item, identityMap: map<string, seq<Item>>)
      requires Valid()
      requires forall v :: Get(identityMap, v) == IdentityMatches(items, v)
      modifies this`relationships, this`seenRelationshipIds
      ensures Valid() && relationships == AddEdges(items, old(relationships), ReplyEdge(items, item))
    {
      AddNoneOrOne(items, relationships, [], ReplyEdge(items, item));
      assert [] + ReplyEdge(items, item) == ReplyEdge(items, item);
      if item.facts.replyToken.None? {
        return;
      }
      var token := item.facts.replyToken.value;
      var unique := UniqueMetadata(Get(identityMap, token.value));
      var candidates := Filter(unique, NotAfter(item.packet.timestamp));
      if |candidates| == 1 {
        AddRelationship(Edge(Some(token.field), RequestResponse, ByReplyTo, candidates[0].packet.id,
                             item.packet.id, Some(token.value)));
      }
    }

    method AddReplyToRelationships()
      requires Valid()
      modifies this`relationships, this`seenRelationshipIds
      ensures Valid() && relationships == AddEdges(items, old(relationships), ReplyEdges(items, items))
    {
      var identityMap := CollectIdentities();
      for i := 0 to |items|
        invariant Valid()
        invariant relationships == AddEdges(items, old(relationships), ReplyEdges(items, items[..i]))
      {
        assert items[..i + 1][..i] == items[..i];
        AddEdgesAppend(items, old(relationships), ReplyEdges(items, items[..i]), ReplyEdge(items, items[i]));
        AddReplyTo(items[i], identityMap);
      }
      assert items[..|items|] == items;
    }

    method AddSequentialFlowRelationships(sequence: Sequence)
      requires Valid()
      modifies this`relationships, this`seenRelationshipIds
      ensures Valid()
      ensures relationships ==
              AddEdges(items, old(relationships),
                       SequenceEdges(sequence, items, KeysInOrder(items, SessionKey(sequence))))
    {
      var order, bySession := GroupBy(items, SessionKey(sequence));
      for i := 0 to |order|
        invariant Valid()
        invariant relationships == AddEdges(items, old(relationships), SequenceEdges(sequence, items, order[..i]))
      {
        assert order[i] in order;
        SequenceGrows(sequence, items, order, i);
        AddChain(sequence, bySession[order[i]]);
        AddEdgesAppend(items, old(relationships), SequenceEdges(sequence, items, order[..i]),
                       ChainEdges(sequence, bySession[order[i]]));
      }
      assert order[..|order|] == order;
    }

    method AddChain(sequence: Sequence, sessionItems: seq<Item>)
      requires Valid()
      modifies this`relationships, this`seenRelationshipIds
      ensures Valid()
      ensures relationships == AddEdges(items, old(relationships), ChainEdges(sequence, sessionItems))
    {
      var index := 1;
      while index < |sessionItems|
        invariant Valid() && 1 <= index
        invariant sessionItems != [] ==> index <= |sessionItems|
        invariant relationships == AddEdges(items, old(relationships), ChainSoFar(sequence, sessionItems, index))
      {
        var previous, current := sessionItems[index - 1], sessionItems[index];
        ChainGrows(sequence, sessionItems, index);
        AddLink(sequence, previous, current);
        AddEdgesAppend(items, old(relationships), ChainSoFar(sequence, sessionItems, index),
                       Link(sequence, previous, current));
        index := index + 1;
      }
      WholeChain(sequence, sessionItems, index);
    }

    method AddLink(sequence: Sequence, previous: Item, current: Item)
      requires Valid()
      modifies this`relationships, this`seenRelationshipIds
      ensures Valid() && relationships == AddEdges(items, old(relationships), Link(sequence, previous, current))
    {
      AddNoneOrOne(items, relationships, [], Link(sequence, previous, current));
      assert [] + Link(sequence, previous, current) == Link(sequence, previous, current);
      if current.packet.timestamp - previous.packet.timestamp <= Window(sequence) {
        AddRelationship(SequenceEdge(sequence, previous, current));
      }
    }

    method AddAll()
      requires Valid() && relationships == []
      modifies this`relationships, this`seenRelationshipIds
      ensures Valid() && relationships == Relationships(items)
    {
      AddReplayRelationships();
      AddExplicitCorrelationRelationships();
      AddReplyToRelationships();
      AddSequentialFlowRelationships(Auth);
      AddSequentialFlowRelationships(Reconnect);
      var a, b, c := ReplayEdges(items), CorrelationEdges(items, KeysInOrder(items, KeyOfCorrelation)),
                     ReplyEdges(items, items);
      var d, e := SequenceEdges(Auth, items, KeysInOrder(items, SessionKey(Auth))),
                  SequenceEdges(Reconnect, items, KeysInOrder(items, SessionKey(Reconnect)));
      AddEdgesAppend(items, [], a, b);
      AddEdgesAppend(items, [], a + b, c);
      AddEdgesAppend(items, [], a + b + c, d);
      AddEdgesAppend(items, [], a + b + c + d, e);
    }
  }

  ghost predicate Collected(byPacketId: map<EntityId, seq<Edge>>, edges: seq<Edge>) {
    && byPacketId.Keys == Endpoints(edges)
    && forall id :: Get(byPacketId, id) == Filter(edges, TouchesId(id))
  }

  lemma CollectNext(byPacketId: map<EntityId, seq<Edge>>, edges: seq<Edge>, e: Edge)
    requires Collected(byPacketId, edges) && e.source != e.target
    ensures Collected(Push(Push(byPacketId, e.source, e), e.target, e), edges + [e])
  {
    EndpointsGrow(edges, e);
    var next := Push(Push(byPacketId, e.source, e), e.target, e);
    forall id ensures Get(next, id) == Filter(edges + [e], TouchesId(id)) {
      FilterGrows(edges, e, id);
      GetPush(byPacketId, e.source, e, id);
      GetPush(Push(byPacketId, e.source, e), e.target, e, id);
      assert Get(byPacketId, id) == Filter(edges, TouchesId(id));
    }
  }

  /** The map filled from the edge list, before its entries are sorted. */
  method CollectByPacketId(edges: seq<Edge>) returns (byPacketId: map<EntityId, seq<Edge>>, ids: set<EntityId>)
    requires forall e :: e in edges ==> e.source != e.target
    ensures ids == Endpoints(edges) && Collected(byPacketId, edges)
  {
    byPacketId, ids := map[], {};
    for i := 0 to |edges|
      invariant ids == Endpoints(edges[..i]) && Collected(byPacketId, edges[..i])
    {
      var e := edges[i];
      assert e in edges && edges[..i + 1] == edges[..i] + [e];
      EndpointsGrow(edges[..i], e);
      CollectNext(byPacketId, edges[..i], e);
      byPacketId := Push(Push(byPacketId, e.source, e), e.target, e);
      ids := ids + {e.source, e.target};
    }
    assert edges[..|edges|] == edges;
  }

  lemma FilterGrows(edges: seq<Edge>, e: Edge, id: EntityId)
    ensures Filter(edges + [e], TouchesId(id))
            == if Touches(e, id) then Filter(edges, TouchesId(id)) + [e] else Filter(edges, TouchesId(id))
  {
    FilterAppend(edges, [e], TouchesId(id));
    assert Filter([e], TouchesId(id)) == if Touches(e, id) then [e] else [];
  }

  lemma EndpointsGrow(edges: seq<Edge>, e: Edge)
    ensures Endpoints(edges + [e]) == Endpoints(edges) + {e.source, e.target}
  {
    var all := edges + [e];
    assert all[|edges|] == e;
    assert forall i :: 0 <= i < |edges| ==> all[i] == edges[i];
    forall id ensures id in Endpoints(all) <==> id in Endpoints(edges) + {e.source, e.target} {
      if id in Endpoints(edges) {
        if i :| 0 <= i < |edges| && edges[i].source == id {
          assert all[i].source == id;
        } else {
          var i :| 0 <= i < |edges| && edges[i].target == id;
          assert all[i].target == id;
        }
      }
    }
  }

  lemma {:induction false} AcceptedEdges(items: seq<Item>, drafts: seq<Edge>)
    ensures NoDuplicates(AddEdges(items, [], drafts))
    ensures forall e :: e in AddEdges(items, [], drafts) <==> e in drafts && Acceptable(items, e)
    decreases |drafts|
  {
    if drafts != [] {
      AcceptedEdges(items, drafts[..|drafts| - 1]);
      assert drafts == drafts[..|drafts| - 1] + [drafts[|drafts| - 1]];
    }
  }

  /** Every entry sorted by the other end. */
  function SortEntries(items: seq<Item>, byPacketId: map<EntityId, seq<Edge>>): map<EntityId, seq<Edge>> {
    map id | id in byPacketId.Keys :: Sort(byPacketId[id], RelatedKey(items, id))
  }

  lemma SortedEntries(items: seq<Item>, edges: seq<Edge>, byPacketId: map<EntityId, seq<Edge>>)
    requires Collected(byPacketId, edges)
    ensures SortEntries(items, byPacketId) == map id | id in Endpoints(edges) :: Entry(items, edges, id)
  {
    forall id | id in byPacketId ensures byPacketId[id] == Filter(edges, TouchesId(id)) {
      assert Get(byPacketId, id) == Filter(edges, TouchesId(id));
    }
  }

  method BuildPacketRelationshipIndex(packets: seq<Packet>, read: Reader) returns (index: Index)
    ensures index == BuildIndex(packets, read)
  {
    if |packets| < 2 {
      return EMPTY_INDEX;
    }
    var items := Metadata(packets, read);
    var builder := new Builder(items);
    builder.AddAll();
    var edges := builder.relationships;
    if |edges| == 0 {
      return EMPTY_INDEX;
    }
    AcceptedEdges(items, Drafts(items));
    var byPacketId, ids := CollectByPacketId(edges);
    SortedEntries(items, edges, byPacketId);
    index := Index(SortEntries(items, byPacketId), ids, edges);
  }
}
