/** Importing a session gives every packet a fresh id. The relationship index of the
    imported packets is the original index with the ids replaced. */
module RelationshipRenaming {
  import opened Sequences
  import opened Models
  import opened Grouping
  import opened PacketRelationships
  import opened RelationshipBuilder
  import opened RelationshipFacts

  /** The ids an import hands out: `newIds` maps each packet id of the file. */
  datatype Import = Import(newIds: map<EntityId, EntityId>, connectionId: EntityId, sessionId: EntityId)

  function NewId(imp: Import, id: EntityId): EntityId { if id in imp.newIds then imp.newIds[id] else id }

  function NewSource(imp: Import, source: Option<EntityId>): Option<EntityId> {
    if source.Some? && source.value != "" then Some(NewId(imp, source.value)) else source
  }

  function RenamedPacket(imp: Import, p: Packet): Packet {
    p.(connectionId := imp.connectionId, id := NewId(imp, p.id), sessionId := imp.sessionId,
       sourcePacketId := if p.sendSource.Some? then NewSource(imp, p.sourcePacketId) else p.sourcePacketId)
  }

  function RenamePacket(imp: Import): Packet -> Packet { (p: Packet) => RenamedPacket(imp, p) }

  /** The packets of the imported snapshot, newest first. */
  function ImportedPackets(packets: seq<Packet>, imp: Import): seq<Packet> {
    Map(SortNewestFirst(packets), RenamePacket(imp))
  }

  function RenamedItem(imp: Import, item: Item): Item { Item(RenamedPacket(imp, item.packet), item.facts) }

  function RenameItem(imp: Import): Item -> Item { (item: Item) => RenamedItem(imp, item) }

  /** A replay edge also carries the source id as its value. */
  function RenamedEdge(imp: Import, e: Edge): Edge {
    e.(source := NewId(imp, e.source), target := NewId(imp, e.target),
       value := if e.kind == ReplaySource then NewSource(imp, e.value) else e.value)
  }

  function RenameEdge(imp: Import): Edge -> Edge { (e: Edge) => RenamedEdge(imp, e) }

  // -- Ids that occur ----------------------------------------------------------------------

  /** The ids that packets carry or point to. */
  ghost predicate Occurs(packets: seq<Packet>, id: EntityId) {
    exists p :: p in packets && (p.id == id || p.sourcePacketId == Some(id))
  }

  ghost function OccurringIds(packets: seq<Packet>): iset<EntityId> { iset id | Occurs(packets, id) }

  /** New ids are one per old id, and new to the file. */
  ghost predicate FreshFor(packets: seq<Packet>, imp: Import) {
    && (forall p :: p in packets ==> p.id in imp.newIds)
    && (forall a, b :: a in imp.newIds && b in imp.newIds && imp.newIds[a] == imp.newIds[b] ==> a == b)
    && (forall a :: a in imp.newIds ==> imp.newIds[a] != "" && !Occurs(packets, imp.newIds[a]))
  }

  ghost predicate Covers(items: seq<Item>, ids: iset<EntityId>) {
    forall item :: item in items ==>
      item.packet.id in ids && (item.packet.sourcePacketId.Some? ==> item.packet.sourcePacketId.value in ids)
  }

  /** `back` undoes the renaming of the ids that occur. */
  ghost predicate RenamesWell(imp: Import, ids: iset<EntityId>, back: EntityId -> EntityId) {
    forall a :: a in ids ==> back(NewId(imp, a)) == a && (a != "" ==> NewId(imp, a) != "")
  }

  ghost predicate OneSession(items: seq<Item>, session: EntityId) {
    forall item :: item in items ==> item.packet.sessionId == session
  }

  /** What each rule's lemma needs of the items, the ids and the import. */
  ghost predicate Ready(
    items: seq<Item>, imp: Import, ids: iset<EntityId>, back: EntityId -> EntityId, session: EntityId)
  {
    Covers(items, ids) && RenamesWell(imp, ids, back) && OneSession(items, session)
  }

  ghost predicate EndsIn(e: Edge, ids: iset<EntityId>) {
    && e.source in ids && e.target in ids
    && (e.kind == ReplaySource ==> e.value == Some(e.source) && e.source != "")
  }

  ghost predicate AllEndIn(edges: seq<Edge>, ids: iset<EntityId>) { forall e :: e in edges ==> EndsIn(e, ids) }

  // -- Replay edges -------------------------------------------------------------------------

  lemma ReplayEdgeRenames(item: Item, imp: Import, ids: iset<EntityId>, back: EntityId -> EntityId)
    requires Covers([item], ids) && RenamesWell(imp, ids, back)
    ensures ReplayEdge(RenameItem(imp)(item)) == Map(ReplayEdge(item), RenameEdge(imp))
    ensures AllEndIn(ReplayEdge(item), ids)
  {
    assert item in [item];
  }

  lemma {:induction false} ReplayRenames(items: seq<Item>, imp: Import, ids: iset<EntityId>, back: EntityId -> EntityId)
    requires Covers(items, ids) && RenamesWell(imp, ids, back)
    ensures ReplayEdges(Map(items, RenameItem(imp))) == Map(ReplayEdges(items), RenameEdge(imp))
    ensures AllEndIn(ReplayEdges(items), ids)
  {
    if items != [] {
      var init, last := items[..|items| - 1], items[|items| - 1];
      SplitLast(items, RenameItem(imp));
      ReplayRenames(init, imp, ids, back);
      assert last in items;
      ReplayEdgeRenames(last, imp, ids, back);
      MapAppend(ReplayEdges(init), ReplayEdge(last), RenameEdge(imp));
    }
  }

  lemma SplitLast<S(!new), T(!new)>(xs: seq<S>, f: S -> T)
    requires xs != []
    ensures var init, last := xs[..|xs| - 1], xs[|xs| - 1];
            && xs == init + [last] && Map(xs, f) == Map(init, f) + [f(last)]
            && Map(xs, f)[..|xs| - 1] == Map(init, f) && Map(xs, f)[|xs| - 1] == f(last)
  {
    assert xs == xs[..|xs| - 1] + [xs[|xs| - 1]];
    MapAppend(xs[..|xs| - 1], [xs[|xs| - 1]], f);
    assert Map([xs[|xs| - 1]], f) == [f(xs[|xs| - 1])];
  }

  // -- Correlation edges ----------------------------------------------------------------------

  function RenameKey(imp: Import): CorrelationKey -> CorrelationKey {
    (k: CorrelationKey) => k.(session := imp.sessionId)
  }

  lemma CorrelationEdgeRenames(group: seq<Item>, imp: Import, ids: iset<EntityId>)
    requires Covers(group, ids)
    ensures CorrelationEdge(Map(group, RenameItem(imp))) == Map(CorrelationEdge(group), RenameEdge(imp))
    ensures AllEndIn(CorrelationEdge(group), ids)
  {
    if |group| == 2 {
      assert group[0] in group && group[1] in group;
    }
  }

  lemma {:induction false} CorrelationRenames(
    items: seq<Item>, keys: seq<CorrelationKey>,
    imp: Import, ids: iset<EntityId>, back: EntityId -> EntityId, session: EntityId)
    requires Ready(items, imp, ids, back, session)
    requires forall k :: k in keys ==> k.session == session
    ensures CorrelationEdges(Map(items, RenameItem(imp)), Map(keys, RenameKey(imp)))
            == Map(CorrelationEdges(items, keys), RenameEdge(imp))
    ensures AllEndIn(CorrelationEdges(items, keys), ids)
  {
    if keys != [] {
      var init, last := keys[..|keys| - 1], keys[|keys| - 1];
      SplitLast(keys, RenameKey(imp));
      CorrelationRenames(items, init, imp, ids, back, session);
      var group := Members(items, KeyOfCorrelation, last);
      MembersHaveKey(items, KeyOfCorrelation, last);
      MembersMap(items, RenameItem(imp), KeyOfCorrelation, KeyOfCorrelation, RenameKey(imp), last);
      CorrelationEdgeRenames(group, imp, ids);
      MapAppend(CorrelationEdges(items, init), CorrelationEdge(group), RenameEdge(imp));
    }
  }

  lemma CorrelationKeysRename(
    items: seq<Item>, imp: Import, ids: iset<EntityId>, back: EntityId -> EntityId, session: EntityId)
    requires Ready(items, imp, ids, back, session)
    ensures var keys := KeysInOrder(items, KeyOfCorrelation);
            && KeysInOrder(Map(items, RenameItem(imp)), KeyOfCorrelation) == Map(keys, RenameKey(imp))
            && forall k :: k in keys ==> k.session == session
  {
    KeysAreComplete(items, KeyOfCorrelation);
    KeysInOrderMap(items, RenameItem(imp), KeyOfCorrelation, KeyOfCorrelation, RenameKey(imp));
  }

  // -- Reply edges ------------------------------------------------------------------------------

  lemma {:induction false} MatchingRenames(item: Item, tokens: seq<FieldToken>, value: string, imp: Import)
    ensures Matching(RenameItem(imp)(item), tokens, value) == Map(Matching(item, tokens, value), RenameItem(imp))
    ensures forall x :: x in Matching(item, tokens, value) ==> x == item
  {
    if tokens != [] {
      MatchingRenames(item, tokens[..|tokens| - 1], value, imp);
      MapAppend(Matching(item, tokens[..|tokens| - 1], value),
                if tokens[|tokens| - 1].value == value then [item] else [], RenameItem(imp));
    }
  }

  lemma {:induction false} MatchesRename(items: seq<Item>, value: string, imp: Import)
    ensures IdentityMatches(Map(items, RenameItem(imp)), value) == Map(IdentityMatches(items, value), RenameItem(imp))
    ensures forall x :: x in IdentityMatches(items, value) ==> x in items
  {
    if items != [] {
      var init, last := items[..|items| - 1], items[|items| - 1];
      SplitLast(items, RenameItem(imp));
      MatchesRename(init, value, imp);
      MatchingRenames(last, last.facts.identityTokens, value, imp);
      MapAppend(IdentityMatches(init, value), Matching(last, last.facts.identityTokens, value), RenameItem(imp));
    }
  }

  lemma HasIdRenames(items: seq<Item>, id: EntityId, imp: Import, ids: iset<EntityId>, back: EntityId -> EntityId)
    requires Covers(items, ids) && RenamesWell(imp, ids, back) && id in ids
    ensures HasId(Map(items, RenameItem(imp)), NewId(imp, id)) <==> HasId(items, id)
  {
    var renamed := Map(items, RenameItem(imp));
    if HasId(items, id) {
      var i :| 0 <= i < |items| && items[i].packet.id == id;
      assert renamed[i].packet.id == NewId(imp, id);
    }
    if HasId(renamed, NewId(imp, id)) {
      var i :| 0 <= i < |renamed| && renamed[i].packet.id == NewId(imp, id);
      assert items[i] in items && items[i].packet.id == id;
    }
  }

  function AddUnique(items: seq<Item>, item: Item): seq<Item> {
    if HasId(items, item.packet.id) then items else items + [item]
  }

  lemma AddUniqueRenames(items: seq<Item>, item: Item, imp: Import, ids: iset<EntityId>, back: EntityId -> EntityId)
    requires Covers(items, ids) && RenamesWell(imp, ids, back) && item.packet.id in ids
    ensures AddUnique(Map(items, RenameItem(imp)), RenameItem(imp)(item))
            == Map(AddUnique(items, item), RenameItem(imp))
  {
    HasIdRenames(items, item.packet.id, imp, ids, back);
    MapAppend(items, [item], RenameItem(imp));
  }

  lemma {:induction false} UniqueAreItems(items: seq<Item>)
    ensures forall x :: x in UniqueById(items) ==> x in items
  {
    if items != [] {
      assert items == items[..|items| - 1] + [items[|items| - 1]];
      UniqueAreItems(items[..|items| - 1]);
    }
  }

  lemma {:induction false} UniqueRenames(items: seq<Item>, imp: Import, ids: iset<EntityId>, back: EntityId -> EntityId)
    requires Covers(items, ids) && RenamesWell(imp, ids, back)
    ensures UniqueById(Map(items, RenameItem(imp))) == Map(UniqueById(items), RenameItem(imp))
  {
    if items != [] {
      var init, last := items[..|items| - 1], items[|items| - 1];
      SplitLast(items, RenameItem(imp));
      assert Covers(init, ids) && last in items;
      UniqueRenames(init, imp, ids, back);
      UniqueAreItems(init);
      AddUniqueRenames(UniqueById(init), last, imp, ids, back);
    }
  }

  lemma CandidatesRename(
    items: seq<Item>, value: string, timestamp: real, imp: Import, ids: iset<EntityId>, back: EntityId -> EntityId)
    requires Covers(items, ids) && RenamesWell(imp, ids, back)
    ensures Candidates(Map(items, RenameItem(imp)), value, timestamp)
            == Map(Candidates(items, value, timestamp), RenameItem(imp))
    ensures forall x :: x in Candidates(items, value, timestamp) ==> x in items
  {
    var f, keep := RenameItem(imp), NotAfter(timestamp);
    MatchesRename(items, value, imp);
    var matches := IdentityMatches(items, value);
    UniqueRenames(matches, imp, ids, back);
    UniqueAreItems(matches);
    FilterMap(UniqueById(matches), f, keep, keep);
    FilterMembers(UniqueById(matches), keep);
  }

  lemma ReplyEdgeRenames(items: seq<Item>, item: Item, imp: Import, ids: iset<EntityId>, back: EntityId -> EntityId)
    requires Covers(items, ids) && RenamesWell(imp, ids, back) && item in items
    ensures ReplyEdge(Map(items, RenameItem(imp)), RenameItem(imp)(item))
            == Map(ReplyEdge(items, item), RenameEdge(imp))
    ensures AllEndIn(ReplyEdge(items, item), ids)
  {
    if item.facts.replyToken.Some? {
      var value, timestamp := item.facts.replyToken.value.value, item.packet.timestamp;
      CandidatesRename(items, value, timestamp, imp, ids, back);
      var candidates := Candidates(items, value, timestamp);
      if |candidates| == 1 {
        assert candidates[0] in candidates;
      }
    }
  }

  lemma {:induction false} RepliesRename(
    items: seq<Item>, repliers: seq<Item>, imp: Import, ids: iset<EntityId>, back: EntityId -> EntityId)
    requires Covers(items, ids) && RenamesWell(imp, ids, back)
    requires forall item :: item in repliers ==> item in items
    ensures ReplyEdges(Map(items, RenameItem(imp)), Map(repliers, RenameItem(imp)))
            == Map(ReplyEdges(items, repliers), RenameEdge(imp))
    ensures AllEndIn(ReplyEdges(items, repliers), ids)
  {
    if repliers != [] {
      var init, last := repliers[..|repliers| - 1], repliers[|repliers| - 1];
      SplitLast(repliers, RenameItem(imp));
      RepliesRename(items, init, imp, ids, back);
      ReplyEdgeRenames(items, last, imp, ids, back);
      MapAppend(ReplyEdges(items, init), ReplyEdge(items, last), RenameEdge(imp));
    }
  }

  // -- Sequence edges -----------------------------------------------------------------------------

  function ToSession(imp: Import): EntityId -> EntityId { (session: EntityId) => imp.sessionId }

  lemma LinkRenames(sequence: Sequence, previous: Item, current: Item, imp: Import, ids: iset<EntityId>)
    requires previous.packet.id in ids && current.packet.id in ids
    ensures Link(sequence, RenameItem(imp)(previous), RenameItem(imp)(current))
            == Map(Link(sequence, previous, current), RenameEdge(imp))
    ensures AllEndIn(Link(sequence, previous, current), ids)
  {
  }

  lemma {:induction false} ChainRenames(sequence: Sequence, items: seq<Item>, imp: Import, ids: iset<EntityId>)
    requires Covers(items, ids)
    ensures ChainEdges(sequence, Map(items, RenameItem(imp))) == Map(ChainEdges(sequence, items), RenameEdge(imp))
    ensures AllEndIn(ChainEdges(sequence, items), ids)
  {
    if |items| >= 2 {
      var init := items[..|items| - 1];
      SplitLast(items, RenameItem(imp));
      ChainRenames(sequence, init, imp, ids);
      var previous, current := items[|items| - 2], items[|items| - 1];
      assert previous in items && current in items;
      LinkRenames(sequence, previous, current, imp, ids);
      MapAppend(ChainEdges(sequence, init), Link(sequence, previous, current), RenameEdge(imp));
    }
  }

  lemma GroupChainRenames(sequence: Sequence, items: seq<Item>, session: EntityId, imp: Import, ids: iset<EntityId>)
    requires Covers(items, ids) && OneSession(items, session)
    ensures var key := SessionKey(sequence);
            ChainEdges(sequence, Members(Map(items, RenameItem(imp)), key, imp.sessionId))
            == Map(ChainEdges(sequence, Members(items, key, session)), RenameEdge(imp))
    ensures AllEndIn(ChainEdges(sequence, Members(items, SessionKey(sequence), session)), ids)
  {
    var key := SessionKey(sequence);
    MembersHaveKey(items, key, session);
    MembersMap(items, RenameItem(imp), key, key, ToSession(imp), session);
    ChainRenames(sequence, Members(items, key, session), imp, ids);
  }

  lemma {:induction false} SequencesRename(
    sequence: Sequence, items: seq<Item>, sessions: seq<EntityId>,
    imp: Import, ids: iset<EntityId>, back: EntityId -> EntityId, session: EntityId)
    requires Ready(items, imp, ids, back, session)
    requires forall s :: s in sessions ==> s == session
    ensures SequenceEdges(sequence, Map(items, RenameItem(imp)), Map(sessions, ToSession(imp)))
            == Map(SequenceEdges(sequence, items, sessions), RenameEdge(imp))
    ensures AllEndIn(SequenceEdges(sequence, items, sessions), ids)
  {
    if sessions != [] {
      var init, last := sessions[..|sessions| - 1], sessions[|sessions| - 1];
      SplitLast(sessions, ToSession(imp));
      assert last in sessions && forall s :: s in init ==> s in sessions;
      SequencesRename(sequence, items, init, imp, ids, back, session);
      GroupChainRenames(sequence, items, session, imp, ids);
      MapAppend(SequenceEdges(sequence, items, init),
                ChainEdges(sequence, Members(items, SessionKey(sequence), last)), RenameEdge(imp));
    }
  }

  lemma SessionKeysRename(
    sequence: Sequence, items: seq<Item>,
    imp: Import, ids: iset<EntityId>, back: EntityId -> EntityId, session: EntityId)
    requires Ready(items, imp, ids, back, session)
    ensures var sessions := KeysInOrder(items, SessionKey(sequence));
            && KeysInOrder(Map(items, RenameItem(imp)), SessionKey(sequence)) == Map(sessions, ToSession(imp))
            && forall s :: s in sessions ==> s == session
  {
    KeysAreComplete(items, SessionKey(sequence));
    KeysInOrderMap(items, RenameItem(imp), SessionKey(sequence), SessionKey(sequence), ToSession(imp));
  }

  // -- Accepting ------------------------------------------------------------------------------------

  function RenamedLookup(imp: Import, found: Option<Item>): Option<Item> {
    match found case None => None case Some(item) => Some(RenamedItem(imp, item))
  }

  lemma {:induction false} LookupRenames(
    items: seq<Item>, id: EntityId, imp: Import, ids: iset<EntityId>, back: EntityId -> EntityId)
    requires Covers(items, ids) && RenamesWell(imp, ids, back) && id in ids
    ensures Lookup(Map(items, RenameItem(imp)), NewId(imp, id))
            == RenamedLookup(imp, Lookup(items, id))
  {
    if items != [] {
      var init, last := items[..|items| - 1], items[|items| - 1];
      SplitLast(items, RenameItem(imp));
      assert last in items && Covers(init, ids);
      LookupRenames(init, id, imp, ids, back);
    }
  }

  lemma AcceptableRenames(
    items: seq<Item>, e: Edge, imp: Import, ids: iset<EntityId>, back: EntityId -> EntityId, session: EntityId)
    requires Ready(items, imp, ids, back, session) && EndsIn(e, ids)
    ensures Acceptable(Map(items, RenameItem(imp)), RenameEdge(imp)(e)) <==> Acceptable(items, e)
  {
    LookupRenames(items, e.source, imp, ids, back);
    LookupRenames(items, e.target, imp, ids, back);
    LookupFinds(items, e.source);
    LookupFinds(items, e.target);
  }

  lemma EdgeInjective(e: Edge, f: Edge, imp: Import, ids: iset<EntityId>, back: EntityId -> EntityId)
    requires RenamesWell(imp, ids, back) && EndsIn(e, ids) && EndsIn(f, ids)
    requires RenameEdge(imp)(e) == RenameEdge(imp)(f)
    ensures e == f
  {
  }

  lemma EdgeMember(edges: seq<Edge>, e: Edge, imp: Import, ids: iset<EntityId>, back: EntityId -> EntityId)
    requires RenamesWell(imp, ids, back) && AllEndIn(edges, ids) && EndsIn(e, ids)
    ensures RenameEdge(imp)(e) in Map(edges, RenameEdge(imp)) <==> e in edges
  {
    forall f | f in edges && RenameEdge(imp)(f) == RenameEdge(imp)(e) ensures f == e {
      EdgeInjective(f, e, imp, ids, back);
    }
    MapMembers(edges, RenameEdge(imp), e);
  }

  lemma {:induction false} AcceptingRenames(
    items: seq<Item>, drafts: seq<Edge>,
    imp: Import, ids: iset<EntityId>, back: EntityId -> EntityId, session: EntityId)
    requires Ready(items, imp, ids, back, session) && AllEndIn(drafts, ids)
    ensures AddEdges(Map(items, RenameItem(imp)), [], Map(drafts, RenameEdge(imp)))
            == Map(AddEdges(items, [], drafts), RenameEdge(imp))
    ensures AllEndIn(AddEdges(items, [], drafts), ids)
    decreases |drafts|
  {
    if drafts != [] {
      var init, last := drafts[..|drafts| - 1], drafts[|drafts| - 1];
      SplitLast(drafts, RenameEdge(imp));
      assert last in drafts && AllEndIn(init, ids);
      AcceptingRenames(items, init, imp, ids, back, session);
      var before := AddEdges(items, [], init);
      AcceptableRenames(items, last, imp, ids, back, session);
      EdgeMember(before, last, imp, ids, back);
      MapAppend(before, [last], RenameEdge(imp));
    }
  }

  lemma DraftsRename(items: seq<Item>, imp: Import, ids: iset<EntityId>, back: EntityId -> EntityId, session: EntityId)
    requires Ready(items, imp, ids, back, session)
    ensures Drafts(Map(items, RenameItem(imp))) == Map(Drafts(items), RenameEdge(imp))
    ensures AllEndIn(Drafts(items), ids)
  {
    var f := RenameEdge(imp);
    ReplayRenames(items, imp, ids, back);
    CorrelationKeysRename(items, imp, ids, back, session);
    CorrelationRenames(items, KeysInOrder(items, KeyOfCorrelation), imp, ids, back, session);
    RepliesRename(items, items, imp, ids, back);
    SessionKeysRename(Auth, items, imp, ids, back, session);
    SequencesRename(Auth, items, KeysInOrder(items, SessionKey(Auth)), imp, ids, back, session);
    SessionKeysRename(Reconnect, items, imp, ids, back, session);
    SequencesRename(Reconnect, items, KeysInOrder(items, SessionKey(Reconnect)), imp, ids, back, session);
    var a, b, c := ReplayEdges(items), CorrelationEdges(items, KeysInOrder(items, KeyOfCorrelation)),
                   ReplyEdges(items, items);
    var d, e := SequenceEdges(Auth, items, KeysInOrder(items, SessionKey(Auth))),
                SequenceEdges(Reconnect, items, KeysInOrder(items, SessionKey(Reconnect)));
    MapAppend(a, b, f);
    MapAppend(a + b, c, f);
    MapAppend(a + b + c, d, f);
    MapAppend(a + b + c + d, e, f);
  }

  // -- Entries ------------------------------------------------------------------------------------------

  lemma TouchesRename(e: Edge, id: EntityId, imp: Import, ids: iset<EntityId>, back: EntityId -> EntityId)
    requires RenamesWell(imp, ids, back) && EndsIn(e, ids) && id in ids
    ensures Touches(RenameEdge(imp)(e), NewId(imp, id)) <==> Touches(e, id)
    ensures RelatedPacketId(RenameEdge(imp)(e), NewId(imp, id)) == NewId(imp, RelatedPacketId(e, id))
  {
  }

  lemma TouchingRenames(edges: seq<Edge>, id: EntityId, imp: Import, ids: iset<EntityId>, back: EntityId -> EntityId)
    requires RenamesWell(imp, ids, back) && AllEndIn(edges, ids) && id in ids
    ensures Filter(Map(edges, RenameEdge(imp)), TouchesId(NewId(imp, id)))
            == Map(Filter(edges, TouchesId(id)), RenameEdge(imp))
  {
    var id', f := NewId(imp, id), RenameEdge(imp);
    forall e | e in edges ensures TouchesId(id')(f(e)) == TouchesId(id)(e) {
      TouchesRename(e, id, imp, ids, back);
    }
    FilterMap(edges, f, TouchesId(id), TouchesId(id'));
  }

  lemma RankRenames(items: seq<Item>, id: EntityId, imp: Import, ids: iset<EntityId>, back: EntityId -> EntityId)
    requires Covers(items, ids) && RenamesWell(imp, ids, back) && id in ids
    ensures Rank(Map(items, RenameItem(imp)), NewId(imp, id)) == Rank(items, id)
  {
    LookupRenames(items, id, imp, ids, back);
  }

  lemma EntryRenames(
    items: seq<Item>, edges: seq<Edge>, id: EntityId,
    imp: Import, ids: iset<EntityId>, back: EntityId -> EntityId, session: EntityId)
    requires Ready(items, imp, ids, back, session) && AllEndIn(edges, ids) && id in ids
    ensures Entry(Map(items, RenameItem(imp)), Map(edges, RenameEdge(imp)), NewId(imp, id))
            == Map(Entry(items, edges, id), RenameEdge(imp))
  {
    var f, touching := RenameEdge(imp), Filter(edges, TouchesId(id));
    var key, key' := RelatedKey(items, id), RelatedKey(Map(items, RenameItem(imp)), NewId(imp, id));
    TouchingRenames(edges, id, imp, ids, back);
    FilterMembers(edges, TouchesId(id));
    forall e | e in touching ensures key'(f(e)) == key(e) {
      assert e in edges;
      TouchesRename(e, id, imp, ids, back);
      RankRenames(items, RelatedPacketId(e, id), imp, ids, back);
    }
    SortMap(touching, f, key, key');
  }

  // -- Main result ----------------------------------------------------------------------------------------

  lemma MetadataRenames(packets: seq<Packet>, read: Reader, imp: Import)
    ensures Metadata(ImportedPackets(packets, imp), read) == Map(Metadata(packets, read), RenameItem(imp))
  {
    var f, sorted := RenamePacket(imp), SortOldestFirst(packets);
    SortMap(SortNewestFirst(packets), f, Oldest, Oldest);
    SortOfReverseSort(packets, Oldest, Newest);
    assert SortOldestFirst(ImportedPackets(packets, imp)) == Map(sorted, f);
    var renamed := Map(Map(sorted, f), ToItem(read));
    forall i | 0 <= i < |sorted| ensures renamed[i] == Map(Map(sorted, ToItem(read)), RenameItem(imp))[i] {
      assert renamed[i] == ToItem(read)(f(sorted[i]));
    }
  }

  ghost function BackOf(packets: seq<Packet>, imp: Import): EntityId -> EntityId {
    (n: EntityId) =>
      if exists a :: a in OccurringIds(packets) && NewId(imp, a) == n
      then var a :| a in OccurringIds(packets) && NewId(imp, a) == n; a
      else n
  }

  lemma NewIdInjective(packets: seq<Packet>, imp: Import, a: EntityId, b: EntityId)
    requires FreshFor(packets, imp) && Occurs(packets, a) && Occurs(packets, b)
    requires NewId(imp, a) == NewId(imp, b)
    ensures a == b
  {
  }

  lemma OccurringIdsRenameWell(packets: seq<Packet>, imp: Import)
    requires FreshFor(packets, imp)
    ensures RenamesWell(imp, OccurringIds(packets), BackOf(packets, imp))
  {
    var back := BackOf(packets, imp);
    forall a | a in OccurringIds(packets)
      ensures back(NewId(imp, a)) == a && (a != "" ==> NewId(imp, a) != "")
    {
      var b := back(NewId(imp, a));
      assert Occurs(packets, b) && NewId(imp, b) == NewId(imp, a);
      NewIdInjective(packets, imp, b, a);
    }
  }

  lemma ImportIsReady(packets: seq<Packet>, read: Reader, imp: Import, session: EntityId)
    requires FreshFor(packets, imp)
    requires forall p :: p in packets ==> p.sessionId == session
    ensures Ready(Metadata(packets, read), imp, OccurringIds(packets), BackOf(packets, imp), session)
  {
    OccurringIdsRenameWell(packets, imp);
    var items := Metadata(packets, read);
    forall item | item in items
      ensures Occurs(packets, item.packet.id) && item.packet.sessionId == session
      ensures item.packet.sourcePacketId.Some? ==> Occurs(packets, item.packet.sourcePacketId.value)
    {
      MetadataItem(packets, read, item);
    }
  }

  /** Building the index commutes with importing: for packets of one session, in any
      order and with any ids, the index of the imported packets has the same edges,
      the same entries in the same order, under the new ids. */
  lemma ImportCommutesWithIndexing(packets: seq<Packet>, read: Reader, imp: Import, session: EntityId)
    requires FreshFor(packets, imp)
    requires forall p :: p in packets ==> p.sessionId == session
    ensures var before, after := BuildIndex(packets, read), BuildIndex(ImportedPackets(packets, imp), read);
            && after.relationships == Map(before.relationships, RenameEdge(imp))
            && (forall id :: Occurs(packets, id) ==>
                  (NewId(imp, id) in after.byPacketId <==> id in before.byPacketId))
            && forall id :: id in before.byPacketId ==>
                 && NewId(imp, id) in after.byPacketId
                 && after.byPacketId[NewId(imp, id)] == Map(before.byPacketId[id], RenameEdge(imp))
  {
    var ids, back, items := OccurringIds(packets), BackOf(packets, imp), Metadata(packets, read);
    var imported := ImportedPackets(packets, imp);
    ImportIsReady(packets, read, imp, session);
    MetadataRenames(packets, read, imp);
    DraftsRename(items, imp, ids, back, session);
    AcceptingRenames(items, Drafts(items), imp, ids, back, session);
    var before, after := BuildIndex(packets, read), BuildIndex(imported, read);
    IndexParts(packets, read);
    IndexParts(imported, read);
    assert |imported| == |packets|;
    RenamedEntries(items, before, after, imp, ids, back, session);
  }

  lemma RenamedEntries(
    items: seq<Item>, before: Index, after: Index,
    imp: Import, ids: iset<EntityId>, back: EntityId -> EntityId, session: EntityId)
    requires Ready(items, imp, ids, back, session) && AllEndIn(before.relationships, ids)
    requires after.relationships == Map(before.relationships, RenameEdge(imp))
    requires before.byPacketId.Keys == Endpoints(before.relationships)
    requires after.byPacketId.Keys == Endpoints(after.relationships)
    requires forall id :: id in before.byPacketId ==> before.byPacketId[id] == Entry(items, before.relationships, id)
    requires forall id :: id in after.byPacketId ==>
               after.byPacketId[id] == Entry(Map(items, RenameItem(imp)), after.relationships, id)
    ensures forall id :: id in ids ==> (NewId(imp, id) in after.byPacketId <==> id in before.byPacketId)
    ensures forall id :: id in before.byPacketId ==>
              && id in ids && NewId(imp, id) in after.byPacketId
              && after.byPacketId[NewId(imp, id)] == Map(before.byPacketId[id], RenameEdge(imp))
  {
    forall id | id in ids ensures NewId(imp, id) in after.byPacketId <==> id in before.byPacketId {
      EndpointRenames(before.relationships, id, imp, ids, back);
    }
    forall id | id in before.byPacketId
      ensures id in ids && NewId(imp, id) in after.byPacketId
      ensures after.byPacketId[NewId(imp, id)] == Map(before.byPacketId[id], RenameEdge(imp))
    {
      EndpointsTouch(before.relationships, id);
      EntryRenames(items, before.relationships, id, imp, ids, back, session);
    }
  }

  lemma EndpointRenames(edges: seq<Edge>, id: EntityId, imp: Import, ids: iset<EntityId>, back: EntityId -> EntityId)
    requires RenamesWell(imp, ids, back) && AllEndIn(edges, ids) && id in ids
    ensures NewId(imp, id) in Endpoints(Map(edges, RenameEdge(imp))) <==> id in Endpoints(edges)
  {
    var renamed := Map(edges, RenameEdge(imp));
    if id in Endpoints(edges) {
      var i :| 0 <= i < |edges| && (edges[i].source == id || edges[i].target == id);
      assert renamed[i] == RenameEdge(imp)(edges[i]);
    }
    if NewId(imp, id) in Endpoints(renamed) {
      var i :| 0 <= i < |renamed| && (renamed[i].source == NewId(imp, id) || renamed[i].target == NewId(imp, id));
      assert renamed[i] == RenameEdge(imp)(edges[i]) && edges[i] in edges;
    }
  }
}
