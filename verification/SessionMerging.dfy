/** An import makes one session of a file's packets. When the file has packets of several
    sessions, relationships can appear and disappear: exactly when they stay is stated here. */
module SessionMerging {
  import opened Sequences
  import opened Models
  import opened Grouping
  import opened PacketRelationships
  import opened RelationshipBuilder
  import opened RelationshipFacts
  import opened RelationshipRenaming
  import FlowRuns
  import SessionImport

  // -- Merging without renaming -----------------------------------------------------------

  /** An import that keeps every id and moves all packets into one session. */
  function Merging(session: EntityId): Import { Import(map[], "", session) }

  function Merged(items: seq<Item>, session: EntityId): seq<Item> { Map(items, RenameItem(Merging(session))) }

  ghost const EVERY_ID: iset<EntityId> := iset id: EntityId | true

  function Same(id: EntityId): EntityId { id }

  lemma MergingKeepsIds(items: seq<Item>, session: EntityId)
    ensures Covers(items, EVERY_ID) && RenamesWell(Merging(session), EVERY_ID, Same)
  {
  }

  lemma EdgesStay(edges: seq<Edge>, session: EntityId)
    ensures Map(edges, RenameEdge(Merging(session))) == edges
  {
  }

  /** Every rename into the session is a rename of the merged items. */
  lemma MergeFirst(items: seq<Item>, imp: Import)
    ensures Map(Merged(items, imp.sessionId), RenameItem(imp)) == Map(items, RenameItem(imp))
  {
    var merged := Merged(items, imp.sessionId);
    forall i | 0 <= i < |items| ensures Map(merged, RenameItem(imp))[i] == Map(items, RenameItem(imp))[i] {
      assert merged[i] == RenameItem(Merging(imp.sessionId))(items[i]);
    }
  }

  // -- Acceptance -------------------------------------------------------------------------

  /** An edge between two packets of the list, of whatever sessions. */
  predicate Findable(items: seq<Item>, e: Edge) {
    e.source != e.target && Lookup(items, e.source).Some? && Lookup(items, e.target).Some?
  }

  predicate CrossesSessions(items: seq<Item>, e: Edge) { Findable(items, e) && !Acceptable(items, e) }

  lemma AcceptableMerged(items: seq<Item>, session: EntityId, e: Edge)
    ensures Acceptable(Merged(items, session), e) <==> Findable(items, e)
  {
    MergingKeepsIds(items, session);
    LookupRenames(items, e.source, Merging(session), EVERY_ID, Same);
    LookupRenames(items, e.target, Merging(session), EVERY_ID, Same);
  }

  lemma FindableItems(items: seq<Item>, e: Edge, p: Item, q: Item)
    requires FlowRuns.ItemsDiffer(items) && p in items && q in items
    requires e.source == p.packet.id && e.target == q.packet.id && p.packet.id != q.packet.id
    ensures Findable(items, e) && (Acceptable(items, e) <==> p.packet.sessionId == q.packet.sessionId)
  {
    FlowRuns.LookupIsItem(items, p);
    FlowRuns.LookupIsItem(items, q);
  }

  // -- Replay and reply edges ---------------------------------------------------------------

  /** No proposal joins packets of different sessions. */
  ghost predicate NoneCrosses(items: seq<Item>, drafts: seq<Edge>) {
    forall e :: e in drafts ==> !CrossesSessions(items, e)
  }

  lemma MergedDrafts(items: seq<Item>, session: EntityId)
    ensures ReplayEdges(Merged(items, session)) == ReplayEdges(items)
    ensures ReplyEdges(Merged(items, session), Merged(items, session)) == ReplyEdges(items, items)
  {
    MergingKeepsIds(items, session);
    ReplayRenames(items, Merging(session), EVERY_ID, Same);
    RepliesRename(items, items, Merging(session), EVERY_ID, Same);
    EdgesStay(ReplayEdges(items), session);
    EdgesStay(ReplyEdges(items, items), session);
  }

  predicate IsDirect(e: Edge) { e.reason == ByReplay || e.reason == ByReplyTo }

  function DirectDrafts(items: seq<Item>): seq<Edge> { ReplayEdges(items) + ReplyEdges(items, items) }

  lemma DirectEdges(items: seq<Item>, e: Edge)
    ensures e in Relationships(items) && IsDirect(e) <==> Acceptable(items, e) && e in DirectDrafts(items)
  {
    AcceptedEdges(items, Drafts(items));
    OtherDrafts(items, e);
  }

  lemma DirectEdgesStay(items: seq<Item>, session: EntityId, e: Edge)
    requires NoneCrosses(items, DirectDrafts(items)) && IsDirect(e)
    ensures e in Relationships(Merged(items, session)) <==> e in Relationships(items)
  {
    MergedDrafts(items, session);
    AcceptableMerged(items, session, e);
    DirectEdges(items, e);
    DirectEdges(Merged(items, session), e);
  }

  lemma CrossingAddsAnEdge(items: seq<Item>, session: EntityId) returns (e: Edge)
    requires !NoneCrosses(items, DirectDrafts(items))
    ensures e in Relationships(Merged(items, session)) && e !in Relationships(items)
  {
    e :| e in DirectDrafts(items) && CrossesSessions(items, e);
    MergedDrafts(items, session);
    AcceptableMerged(items, session, e);
    ReplayReasons(items);
    ReplyReasons(items, items);
    DirectEdges(items, e);
    DirectEdges(Merged(items, session), e);
  }

  // -- Correlation edges ----------------------------------------------------------------------

  function TokenOf(item: Item): Option<FieldToken> { CorrelationToken(item.facts) }

  /** The packets with a token, in any session and in one. */
  function Carriers(items: seq<Item>, token: FieldToken): seq<Item> { Members(items, TokenOf, token) }

  function CarriersIn(items: seq<Item>, session: EntityId, token: FieldToken): seq<Item> {
    Members(items, KeyOfCorrelation, CorrelationKey(session, token))
  }

  predicate IsPair(group: seq<Item>) { |group| == 2 && group[0].packet.direction != group[1].packet.direction }

  /** Packets of different sessions carry the token. */
  ghost predicate IsShared(items: seq<Item>, token: FieldToken) {
    exists x, y :: x in items && y in items && TokenOf(x) == Some(token) == TokenOf(y)
                   && x.packet.sessionId != y.packet.sessionId
  }

  /** A token of several sessions is on a pair neither in one of them nor in all together. */
  ghost predicate SharedTokensPairNowhere(items: seq<Item>) {
    forall token :: IsShared(items, token) ==>
      !IsPair(Carriers(items, token)) && forall s :: !IsPair(CarriersIn(items, s, token))
  }

  lemma MergedCarriers(items: seq<Item>, session: EntityId, token: FieldToken)
    ensures CarriersIn(Merged(items, session), session, token) == Merged(Carriers(items, token), session)
  {
    MembersMap(items, RenameItem(Merging(session)), TokenOf, KeyOfCorrelation,
               (t: FieldToken) => CorrelationKey(session, t), token);
  }

  lemma MergedPairs(items: seq<Item>, session: EntityId, e: Edge, k: CorrelationKey)
    ensures Pairs(Merged(items, session), e, k) <==>
            k.session == session && e in CorrelationEdge(Carriers(items, k.token))
  {
    var merged, carriers := Merged(items, session), Carriers(items, k.token);
    if k.session == session {
      MergedCarriers(items, session, k.token);
      CorrelationEdgeRenames(carriers, Merging(session), EVERY_ID);
      EdgesStay(CorrelationEdge(carriers), session);
    } else {
      NoMembers(merged, KeyOfCorrelation, k);
    }
  }

  /** The group of a token is of items that carry it, with different ids. */
  ghost predicate Carry(items: seq<Item>, group: seq<Item>, token: FieldToken) {
    && FlowRuns.ItemsDiffer(items) && FlowRuns.ItemsDiffer(group)
    && forall x :: x in group ==> x in items && TokenOf(x) == Some(token)
  }

  lemma CarriersCarry(items: seq<Item>, session: EntityId, token: FieldToken)
    requires FlowRuns.ItemsDiffer(items)
    ensures Carry(items, Carriers(items, token), token) && Carry(items, CarriersIn(items, session, token), token)
    ensures forall x :: x in Carriers(items, token) <==> x in items && TokenOf(x) == Some(token)
    ensures forall x :: x in CarriersIn(items, session, token) ==> x.packet.sessionId == session
  {
    FlowRuns.MembersDiffer(items, TokenOf, token);
    FlowRuns.MembersDiffer(items, KeyOfCorrelation, CorrelationKey(session, token));
  }

  /** The edge of a pair says which token it is for. */
  lemma EdgeOfGroup(items: seq<Item>, group: seq<Item>, token: FieldToken, e: Edge)
    requires Carry(items, group, token) && e in CorrelationEdge(group)
    ensures IsPair(group) && IsCorrelation(e) && Findable(items, e)
    ensures e.field == Some(token.field) && e.value == Some(token.value)
    ensures Acceptable(items, e) <==> group[0].packet.sessionId == group[1].packet.sessionId
  {
    assert group[0] in group && group[1] in group;
    FindableItems(items, e, group[0], group[1]);
  }

  lemma PairHasEdge(items: seq<Item>, group: seq<Item>, token: FieldToken) returns (e: Edge)
    requires Carry(items, group, token) && IsPair(group)
    ensures e in CorrelationEdge(group)
  {
    assert group[0] in group && group[1] in group;
    e := CorrelationEdge(group)[0];
  }

  lemma CarriersOfOneSession(items: seq<Item>, x: Item, token: FieldToken)
    requires !IsShared(items, token) && x in items && TokenOf(x) == Some(token)
    ensures CarriersIn(items, x.packet.sessionId, token) == Carriers(items, token)
  {
    var k, carriers := CorrelationKey(x.packet.sessionId, token), Carriers(items, token);
    MembersOfMembers(items, KeyOfCorrelation, k, TokenOf, token);
    MembersHaveKey(items, TokenOf, token);
    AllAreMembers(carriers, KeyOfCorrelation, k);
  }

  lemma CorrelationEdgeIsKept(items: seq<Item>, session: EntityId, e: Edge, k: CorrelationKey)
    requires FlowRuns.ItemsDiffer(items) && SharedTokensPairNowhere(items) && Pairs(items, e, k)
    ensures e in Relationships(Merged(items, session))
  {
    var group := CarriersIn(items, k.session, k.token);
    CarriersCarry(items, k.session, k.token);
    EdgeOfGroup(items, group, k.token, e);
    assert group[0] in group;
    CarriersOfOneSession(items, group[0], k.token);
    MergedPairs(items, session, e, CorrelationKey(session, k.token));
    AcceptableMerged(items, session, e);
    ExplicitEdgesExactly(Merged(items, session), e);
  }

  lemma CorrelationEdgeWasThere(items: seq<Item>, session: EntityId, e: Edge, k: CorrelationKey)
    requires FlowRuns.ItemsDiffer(items) && SharedTokensPairNowhere(items) && Pairs(Merged(items, session), e, k)
    ensures e in Relationships(items)
  {
    var group := Carriers(items, k.token);
    MergedPairs(items, session, e, k);
    CarriersCarry(items, session, k.token);
    EdgeOfGroup(items, group, k.token, e);
    assert group[0] in group && group[1] in group;
    CarriersOfOneSession(items, group[0], k.token);
    assert Pairs(items, e, CorrelationKey(group[0].packet.sessionId, k.token));
    ExplicitEdgesExactly(items, e);
  }

  lemma CorrelationEdgesStay(items: seq<Item>, session: EntityId, e: Edge)
    requires FlowRuns.ItemsDiffer(items) && SharedTokensPairNowhere(items) && IsCorrelation(e)
    ensures e in Relationships(Merged(items, session)) <==> e in Relationships(items)
  {
    if e in Relationships(items) {
      ExplicitEdgesExactly(items, e);
      var k :| Pairs(items, e, k);
      CorrelationEdgeIsKept(items, session, e, k);
    }
    if e in Relationships(Merged(items, session)) {
      ExplicitEdgesExactly(Merged(items, session), e);
      var k :| Pairs(Merged(items, session), e, k);
      CorrelationEdgeWasThere(items, session, e, k);
    }
  }

  lemma SharedPairIsOfTwoSessions(items: seq<Item>, token: FieldToken)
    requires IsShared(items, token) && IsPair(Carriers(items, token))
    ensures var group := Carriers(items, token); group[0].packet.sessionId != group[1].packet.sessionId
  {
    var group := Carriers(items, token);
    MembersHaveKey(items, TokenOf, token);
    var x, y :| x in items && y in items && TokenOf(x) == Some(token) == TokenOf(y)
                && x.packet.sessionId != y.packet.sessionId;
    assert x in group && y in group;
  }

  lemma CommonPairAppears(items: seq<Item>, session: EntityId, token: FieldToken) returns (e: Edge)
    requires FlowRuns.ItemsDiffer(items) && IsShared(items, token) && IsPair(Carriers(items, token))
    ensures e in Relationships(Merged(items, session)) && e !in Relationships(items)
  {
    var group := Carriers(items, token);
    CarriersCarry(items, session, token);
    e := PairHasEdge(items, group, token);
    EdgeOfGroup(items, group, token, e);
    SharedPairIsOfTwoSessions(items, token);
    MergedPairs(items, session, e, CorrelationKey(session, token));
    AcceptableMerged(items, session, e);
    ExplicitEdgesExactly(Merged(items, session), e);
    ExplicitEdgesExactly(items, e);
  }

  lemma PairOfOneSessionDisappears(items: seq<Item>, session: EntityId, s: EntityId, token: FieldToken)
    returns (e: Edge)
    requires FlowRuns.ItemsDiffer(items)
    requires IsPair(CarriersIn(items, s, token)) && !IsPair(Carriers(items, token))
    ensures e !in Relationships(Merged(items, session)) && e in Relationships(items)
  {
    var group, merged := CarriersIn(items, s, token), Merged(items, session);
    CarriersCarry(items, s, token);
    e := PairHasEdge(items, group, token);
    EdgeOfGroup(items, group, token, e);
    assert group[0] in group && group[1] in group;
    assert Pairs(items, e, CorrelationKey(s, token));
    ExplicitEdgesExactly(items, e);
    ExplicitEdgesExactly(merged, e);
    if k :| Pairs(merged, e, k) {
      MergedPairs(items, session, e, k);
      CarriersCarry(items, session, k.token);
      EdgeOfGroup(items, Carriers(items, k.token), k.token, e);
    }
  }

  // -- Sequence edges --------------------------------------------------------------------------

  function FlowKey(sequence: Sequence): Item -> Option<Sequence> {
    (item: Item) => if InSequence(sequence, item) then Some(sequence) else None
  }

  /** The auth (or reconnect) packets of all sessions. */
  function FlowItems(items: seq<Item>, sequence: Sequence): seq<Item> {
    Members(items, FlowKey(sequence), sequence)
  }

  predicate AreNearNeighbours(sequence: Sequence, flow: seq<Item>, m: nat) {
    m + 1 < |flow| && Near(sequence, flow[m], flow[m + 1])
  }

  /** Neighbours in time, all sessions together, are far apart or of one session. */
  ghost predicate NearNeighboursShareSession(sequence: Sequence, flow: seq<Item>) {
    forall m: nat :: AreNearNeighbours(sequence, flow, m) ==>
      flow[m].packet.sessionId == flow[m + 1].packet.sessionId
  }

  ghost predicate InTimeOrder(items: seq<Item>) {
    forall i, j :: 0 <= i < j < |items| ==> items[i].packet.timestamp <= items[j].packet.timestamp
  }

  lemma {:induction false} FlowInOrder(items: seq<Item>, sequence: Sequence)
    requires InTimeOrder(items)
    ensures InTimeOrder(FlowItems(items, sequence))
    ensures forall x :: x in FlowItems(items, sequence) ==> x in items
  {
    if items != [] {
      var init := items[..|items| - 1];
      FlowInOrder(init, sequence);
      var before := FlowItems(init, sequence);
      forall i | 0 <= i < |before| ensures before[i].packet.timestamp <= items[|items| - 1].packet.timestamp {
        assert before[i] in init;
      }
    }
  }

  lemma MergedDiffer(items: seq<Item>, session: EntityId)
    requires FlowRuns.ItemsDiffer(items)
    ensures FlowRuns.ItemsDiffer(Merged(items, session))
  {
  }

  lemma MergedFlow(items: seq<Item>, session: EntityId, sequence: Sequence)
    ensures FlowRuns.SessionItems(Merged(items, session), sequence, session)
            == Merged(FlowItems(items, sequence), session)
  {
    MembersMap(items, RenameItem(Merging(session)), FlowKey(sequence), SessionKey(sequence),
               (s: Sequence) => session, sequence);
  }

  lemma MergedLinks(
    items: seq<Item>, session: EntityId, sequence: Sequence, e: Edge, s: EntityId, m: nat)
    ensures FlowRuns.LinksNeighbours(sequence, Merged(items, session), e, s, m) <==>
            var flow := FlowItems(items, sequence);
            s == session && AreNearNeighbours(sequence, flow, m) && e == SequenceEdge(sequence, flow[m], flow[m + 1])
  {
    if s == session {
      MergedFlow(items, session, sequence);
    } else {
      NoMembers(Merged(items, session), SessionKey(sequence), s);
    }
  }

  lemma LinkIsAnEdge(sequence: Sequence, items: seq<Item>, e: Edge, s: EntityId, m: nat)
    requires FlowRuns.ItemsDiffer(items) && FlowRuns.LinksNeighbours(sequence, items, e, s, m)
    ensures e in Relationships(items)
  {
    var members := FlowRuns.SessionItems(items, sequence, s);
    FlowRuns.MembersDiffer(items, SessionKey(sequence), s);
    assert members[m] in members && members[m + 1] in members;
    FindableItems(items, e, members[m], members[m + 1]);
    FlowRuns.NeighboursAreLinked(sequence, items, s, m);
  }

  lemma NeighboursInSession(items: seq<Item>, sequence: Sequence, m: nat) returns (n: nat)
    requires var flow := FlowItems(items, sequence);
             m + 1 < |flow| && flow[m].packet.sessionId == flow[m + 1].packet.sessionId
    ensures var flow := FlowItems(items, sequence);
            var members := FlowRuns.SessionItems(items, sequence, flow[m].packet.sessionId);
            n + 1 < |members| && members[n] == flow[m] && members[n + 1] == flow[m + 1]
  {
    var flow := FlowItems(items, sequence);
    var s := flow[m].packet.sessionId;
    MembersHaveKey(items, FlowKey(sequence), sequence);
    MembersOfMembers(items, SessionKey(sequence), s, FlowKey(sequence), sequence);
    assert flow[m] in flow && flow[m + 1] in flow;
    n := NeighboursStay(flow, SessionKey(sequence), s, m);
  }

  lemma NeighboursOverall(items: seq<Item>, sequence: Sequence, s: EntityId, m: nat) returns (i: nat)
    requires InTimeOrder(items) && NearNeighboursShareSession(sequence, FlowItems(items, sequence))
    requires AreNearNeighbours(sequence, FlowRuns.SessionItems(items, sequence, s), m)
    ensures var flow, members := FlowItems(items, sequence), FlowRuns.SessionItems(items, sequence, s);
            AreNearNeighbours(sequence, flow, i) && flow[i] == members[m] && flow[i + 1] == members[m + 1]
  {
    var flow := FlowItems(items, sequence);
    MembersHaveKey(items, FlowKey(sequence), sequence);
    MembersOfMembers(items, SessionKey(sequence), s, FlowKey(sequence), sequence);
    MembersHaveKey(flow, SessionKey(sequence), s);
    FlowInOrder(items, sequence);
    var j;
    i, j := NothingBetween(flow, SessionKey(sequence), s, m);
    var members := FlowRuns.SessionItems(items, sequence, s);
    assert members[m] in members;
    if i + 1 < j {
      assert flow[i + 1] in flow;
      assert AreNearNeighbours(sequence, flow, i);
    }
  }

  lemma SequenceEdgesStay(items: seq<Item>, session: EntityId, sequence: Sequence, e: Edge)
    requires FlowRuns.ItemsDiffer(items) && InTimeOrder(items) && e.kind == KindOf(sequence)
    requires NearNeighboursShareSession(sequence, FlowItems(items, sequence))
    ensures e in Relationships(Merged(items, session)) <==> e in Relationships(items)
  {
    var merged := Merged(items, session);
    MergedDiffer(items, session);
    if e in Relationships(merged) {
      var s, m := FlowRuns.EdgeLinksNeighbours(sequence, merged, e);
      MergedLinks(items, session, sequence, e, s, m);
      var n := NeighboursInSession(items, sequence, m);
      LinkIsAnEdge(sequence, items, e, FlowItems(items, sequence)[m].packet.sessionId, n);
    }
    if e in Relationships(items) {
      var s, m := FlowRuns.EdgeLinksNeighbours(sequence, items, e);
      var i := NeighboursOverall(items, sequence, s, m);
      MergedLinks(items, session, sequence, e, session, i);
      LinkIsAnEdge(sequence, merged, e, session, i);
    }
  }

  lemma NearSessionsAreLinked(items: seq<Item>, session: EntityId, sequence: Sequence) returns (e: Edge)
    requires FlowRuns.ItemsDiffer(items)
    requires !NearNeighboursShareSession(sequence, FlowItems(items, sequence))
    ensures e in Relationships(Merged(items, session)) && e !in Relationships(items)
  {
    var flow := FlowItems(items, sequence);
    var m: nat :| AreNearNeighbours(sequence, flow, m) && flow[m].packet.sessionId != flow[m + 1].packet.sessionId;
    e := SequenceEdge(sequence, flow[m], flow[m + 1]);
    MergedDiffer(items, session);
    MergedLinks(items, session, sequence, e, session, m);
    LinkIsAnEdge(sequence, Merged(items, session), e, session, m);
    FlowRuns.MembersDiffer(items, FlowKey(sequence), sequence);
    assert flow[m] in flow && flow[m + 1] in flow;
    FindableItems(items, e, flow[m], flow[m + 1]);
    AcceptedEdges(items, Drafts(items));
  }

  // -- All rules together ------------------------------------------------------------------------

  /** No rule sees packets of different sessions together. */
  ghost predicate SessionsApart(items: seq<Item>) {
    && NoneCrosses(items, DirectDrafts(items))
    && SharedTokensPairNowhere(items)
    && NearNeighboursShareSession(Auth, FlowItems(items, Auth))
    && NearNeighboursShareSession(Reconnect, FlowItems(items, Reconnect))
  }

  ghost predicate SameEdges(edges: seq<Edge>, others: seq<Edge>) { forall e :: e in edges <==> e in others }

  lemma ApartKeepsEdges(items: seq<Item>, session: EntityId)
    requires FlowRuns.ItemsDiffer(items) && InTimeOrder(items) && SessionsApart(items)
    ensures SameEdges(Relationships(Merged(items, session)), Relationships(items))
  {
    var merged := Merged(items, session);
    forall e ensures e in Relationships(merged) <==> e in Relationships(items) {
      if IsDirect(e) {
        DirectEdgesStay(items, session, e);
      } else if IsCorrelation(e) {
        CorrelationEdgesStay(items, session, e);
      } else if e.kind == KindOf(Auth) {
        SequenceEdgesStay(items, session, Auth, e);
      } else if e.kind == KindOf(Reconnect) {
        SequenceEdgesStay(items, session, Reconnect, e);
      } else if e in Relationships(merged) {
        EveryEdgeHasARule(merged, e);
      } else if e in Relationships(items) {
        EveryEdgeHasARule(items, e);
      }
    }
  }

  lemma TogetherChangesEdges(items: seq<Item>, session: EntityId) returns (e: Edge)
    requires FlowRuns.ItemsDiffer(items) && !SessionsApart(items)
    ensures e in Relationships(Merged(items, session)) <==> e !in Relationships(items)
  {
    if !NoneCrosses(items, DirectDrafts(items)) {
      e := CrossingAddsAnEdge(items, session);
    } else if !SharedTokensPairNowhere(items) {
      e := SharedTokenChangesEdges(items, session);
    } else if !NearNeighboursShareSession(Auth, FlowItems(items, Auth)) {
      e := NearSessionsAreLinked(items, session, Auth);
    } else {
      e := NearSessionsAreLinked(items, session, Reconnect);
    }
  }

  lemma SharedTokenChangesEdges(items: seq<Item>, session: EntityId) returns (e: Edge)
    requires FlowRuns.ItemsDiffer(items) && !SharedTokensPairNowhere(items)
    ensures e in Relationships(Merged(items, session)) <==> e !in Relationships(items)
  {
    var token :| IsShared(items, token)
                 && (IsPair(Carriers(items, token)) || exists s :: IsPair(CarriersIn(items, s, token)));
    if IsPair(Carriers(items, token)) {
      e := CommonPairAppears(items, session, token);
    } else {
      var s :| IsPair(CarriersIn(items, s, token));
      e := PairOfOneSessionDisappears(items, session, s, token);
    }
  }

  /** Making one session of all packets changes no relationship iff no rule sees packets
      of different sessions together. */
  lemma MergingKeepsEdgesIff(items: seq<Item>, session: EntityId)
    requires FlowRuns.ItemsDiffer(items) && InTimeOrder(items)
    ensures SameEdges(Relationships(Merged(items, session)), Relationships(items)) <==> SessionsApart(items)
  {
    if SessionsApart(items) {
      ApartKeepsEdges(items, session);
    } else {
      var e := TogetherChangesEdges(items, session);
    }
  }

  // -- Imports -----------------------------------------------------------------------------------

  lemma MetadataInOrder(packets: seq<Packet>, read: Reader)
    ensures InTimeOrder(Metadata(packets, read))
  {
    var sorted, items := SortOldestFirst(packets), Metadata(packets, read);
    SortSorts(packets, Oldest);
    forall i, j | 0 <= i < j < |items| ensures items[i].packet.timestamp <= items[j].packet.timestamp {
      assert Oldest(sorted[i]) <= Oldest(sorted[j]);
      assert items[i] == ToItem(read)(sorted[i]) && items[j] == ToItem(read)(sorted[j]);
    }
  }

  lemma MetadataCovered(packets: seq<Packet>, read: Reader, session: EntityId)
    ensures Covers(Metadata(packets, read), OccurringIds(packets))
    ensures Covers(Merged(Metadata(packets, read), session), OccurringIds(packets))
    ensures OneSession(Merged(Metadata(packets, read), session), session)
  {
    var items := Metadata(packets, read);
    var merged := Merged(items, session);
    forall item | item in items
      ensures Occurs(packets, item.packet.id)
      ensures item.packet.sourcePacketId.Some? ==> Occurs(packets, item.packet.sourcePacketId.value)
    {
      MetadataItem(packets, read, item);
    }
    forall item | item in merged
      ensures item.packet.sessionId == session && Covers([item], OccurringIds(packets))
    {
      var i :| 0 <= i < |merged| && merged[i] == item;
      assert item == RenameItem(Merging(session))(items[i]) && items[i] in items;
    }
  }

  lemma EdgesEndIn(items: seq<Item>, ids: iset<EntityId>)
    requires Covers(items, ids)
    ensures AllEndIn(Relationships(items), ids)
  {
    AcceptedEdges(items, Drafts(items));
    forall e | e in Relationships(items) ensures EndsIn(e, ids) {
      LookupFinds(items, e.source);
      LookupFinds(items, e.target);
      EveryEdgeHasARule(items, e);
      OtherDrafts(items, e);
      ReplayMembers(items, e);
      ReplyReasons(items, items);
      CorrelationDrafts(items, e);
      CorrelationPairs(items, KeysInOrder(items, KeyOfCorrelation));
    }
  }

  /** Renaming one-to-one, two edge lists agree iff the renamed ones do. */
  lemma SameEdgesRename(
    edges: seq<Edge>, others: seq<Edge>, imp: Import, ids: iset<EntityId>, back: EntityId -> EntityId)
    requires RenamesWell(imp, ids, back) && AllEndIn(edges, ids) && AllEndIn(others, ids)
    ensures SameEdges(Map(edges, RenameEdge(imp)), Map(others, RenameEdge(imp))) <==> SameEdges(edges, others)
  {
    if SameEdges(edges, others) {
      SameEdgesAfter(edges, others, imp);
      SameEdgesAfter(others, edges, imp);
    }
    if SameEdges(Map(edges, RenameEdge(imp)), Map(others, RenameEdge(imp))) {
      forall e | e in edges || e in others ensures e in edges && e in others {
        EdgeMember(edges, e, imp, ids, back);
        EdgeMember(others, e, imp, ids, back);
      }
    }
  }

  lemma SameEdgesAfter(edges: seq<Edge>, others: seq<Edge>, imp: Import)
    requires SameEdges(edges, others)
    ensures forall f :: f in Map(edges, RenameEdge(imp)) ==> f in Map(others, RenameEdge(imp))
  {
    var renamed := Map(edges, RenameEdge(imp));
    forall f | f in renamed ensures f in Map(others, RenameEdge(imp)) {
      var i :| 0 <= i < |renamed| && renamed[i] == f;
      assert edges[i] in edges;
      var j :| 0 <= j < |others| && others[j] == edges[i];
      assert Map(others, RenameEdge(imp))[j] == f;
    }
  }

  /** The imported edges are the merged edges under the new ids. */
  lemma ImportedEdges(packets: seq<Packet>, read: Reader, imp: Import)
    requires FreshFor(packets, imp)
    ensures var merged := Merged(Metadata(packets, read), imp.sessionId);
            && Relationships(Metadata(ImportedPackets(packets, imp), read))
               == Map(Relationships(merged), RenameEdge(imp))
            && AllEndIn(Relationships(merged), OccurringIds(packets))
  {
    var ids, back, items := OccurringIds(packets), BackOf(packets, imp), Metadata(packets, read);
    var merged := Merged(items, imp.sessionId);
    MetadataCovered(packets, read, imp.sessionId);
    OccurringIdsRenameWell(packets, imp);
    MetadataRenames(packets, read, imp);
    MergeFirst(items, imp);
    DraftsRename(merged, imp, ids, back, imp.sessionId);
    AcceptingRenames(merged, Drafts(merged), imp, ids, back, imp.sessionId);
  }

  /** Exactly when an import keeps the relationships of a file of any sessions: when no
      rule sees packets of different sessions together. */
  lemma ImportKeepsEdgesIff(packets: seq<Packet>, read: Reader, imp: Import)
    requires FlowRuns.IdsDiffer(packets) && FreshFor(packets, imp)
    ensures SameEdges(BuildIndex(ImportedPackets(packets, imp), read).relationships,
                      Map(BuildIndex(packets, read).relationships, RenameEdge(imp)))
            <==> SessionsApart(Metadata(packets, read))
  {
    var items, imported := Metadata(packets, read), ImportedPackets(packets, imp);
    var merged := Merged(items, imp.sessionId);
    FlowRuns.MetadataDiffers(packets, read);
    MetadataInOrder(packets, read);
    MergingKeepsEdgesIff(items, imp.sessionId);
    ImportedEdges(packets, read, imp);
    MetadataCovered(packets, read, imp.sessionId);
    EdgesEndIn(items, OccurringIds(packets));
    OccurringIdsRenameWell(packets, imp);
    SameEdgesRename(Relationships(merged), Relationships(items), imp, OccurringIds(packets), BackOf(packets, imp));
    AllEdges(packets, read);
    AllEdges(imported, read);
  }

  lemma AllEdges(packets: seq<Packet>, read: Reader)
    ensures BuildIndex(packets, read).relationships == Relationships(Metadata(packets, read))
  {
    IndexParts(packets, read);
    if |packets| < 2 {
      FlowRuns.NoEdgesWithoutTwo(Metadata(packets, read));
    }
  }

  // -- A file whose import gains a relationship ------------------------------------------------------

  const PAYLOAD := "{\"correlationId\":\"c-1\"}"
  const REQUEST :=
    Packet(None, "connection", Outbound, "p", PAYLOAD, Json, None, "first", 23.0, None, 1.0)
  const ANSWER :=
    Packet(None, "connection", Inbound, "q", PAYLOAD, Json, None, "second", 23.0, None, 2.0)

  lemma NothingJoinsThem(e: Edge)
    ensures !JoinsPackets([REQUEST, ANSWER], e)
  {
  }

  lemma SessionsKeepApart(read: Reader)
    ensures BuildIndex([REQUEST, ANSWER], read).relationships == []
  {
    var edges := BuildIndex([REQUEST, ANSWER], read).relationships;
    EdgesAreSound([REQUEST, ANSWER], read);
    forall e ensures e !in edges {
      NothingJoinsThem(e);
    }
    if edges != [] {
      SomeEdge(edges);
    }
  }

  lemma SomeEdge(edges: seq<Edge>)
    requires edges != []
    ensures exists e :: e in edges
  {
    assert edges[0] in edges;
  }

  lemma OrderedItems(read: Reader)
    ensures Metadata([REQUEST, ANSWER], read) == [ToItem(read)(REQUEST), ToItem(read)(ANSWER)]
  {
    SortSorted([REQUEST, ANSWER], Oldest);
  }

  lemma TheTokenIsShared(read: Reader, token: FieldToken)
    requires CorrelationToken(read(PAYLOAD, Json)) == Some(token)
    ensures !SessionsApart(Metadata([REQUEST, ANSWER], read))
  {
    var p, q := ToItem(read)(REQUEST), ToItem(read)(ANSWER);
    var items := [p, q];
    OrderedItems(read);
    AllAreMembers(items, TokenOf, token);
    assert p in items && q in items;
    assert IsShared(items, token) && IsPair(Carriers(items, token));
  }

  /** Two packets of different sessions with one correlation id are not related in the
      file and are related in its import, whatever else the analyser reads off them. */
  lemma MergedSessionsCanAddRelationships(ids: seq<EntityId>, read: Reader)
    requires |ids| == 4 && SessionImport.AreNew([REQUEST, ANSWER], ids)
    requires CorrelationToken(read(PAYLOAD, Json)).Some?
    ensures BuildIndex([REQUEST, ANSWER], read).relationships == []
    ensures BuildIndex(ImportedPackets([REQUEST, ANSWER], SessionImport.ImportOf([REQUEST, ANSWER], ids)), read)
            .relationships != []
  {
    var imp := SessionImport.ImportOf([REQUEST, ANSWER], ids);
    SessionsKeepApart(read);
    SessionImport.NewIdsAreFresh([REQUEST, ANSWER], ids);
    TheTokenIsShared(read, CorrelationToken(read(PAYLOAD, Json)).value);
    ImportKeepsEdgesIff([REQUEST, ANSWER], read, imp);
  }
}
