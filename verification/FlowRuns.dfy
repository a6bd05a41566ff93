/** Auth and reconnect flows are exactly the time-chained runs of their packets. */
module FlowRuns {
  import opened Sequences
  import opened Models
  import opened Grouping
  import opened PacketRelationships
  import opened RelationshipBuilder
  import opened RelationshipFacts
  import opened FlowAnalysis

  /** The auth (or reconnect) packets of one session, oldest first. */
  function SessionItems(items: seq<Item>, sequence: Sequence, session: EntityId): seq<Item> {
    Members(items, SessionKey(sequence), session)
  }

  function IdAt(items: seq<Item>, i: nat): EntityId
    requires i < |items|
  {
    items[i].packet.id
  }

  /** Every gap from `i` to `j` is within the window; an empty id breaks the chain. */
  ghost predicate Chained(sequence: Sequence, items: seq<Item>, i: nat, j: nat)
    requires i <= j < |items|
  {
    && (forall k :: i <= k < j ==> Near(sequence, items[k], items[k + 1]))
    && (forall k :: i <= k <= j ==> IdAt(items, k) != "")
  }

  // -- Which edges of the kind there are ---------------------------------------------------------

  lemma {:induction false} ChainMembers(sequence: Sequence, items: seq<Item>, e: Edge)
    ensures e in ChainEdges(sequence, items) <==>
            exists m :: 0 <= m < |items| - 1 && e in Link(sequence, items[m], items[m + 1])
  {
    if |items| >= 2 {
      var init := items[..|items| - 1];
      ChainMembers(sequence, init, e);
      if m :| 0 <= m < |init| - 1 && e in Link(sequence, init[m], init[m + 1]) {
        assert e in Link(sequence, items[m], items[m + 1]);
      }
      if m :| 0 <= m < |items| - 1 && e in Link(sequence, items[m], items[m + 1]) {
        if m < |init| - 1 {
          assert e in Link(sequence, init[m], init[m + 1]);
        }
      }
      if e in Link(sequence, items[|items| - 2], items[|items| - 1]) {
        assert e in Link(sequence, items[|items| - 2], items[|items| - 2 + 1]);
      }
    }
  }

  lemma {:induction false} SequenceMembers(sequence: Sequence, items: seq<Item>, sessions: seq<EntityId>, e: Edge)
    ensures e in SequenceEdges(sequence, items, sessions) <==>
            exists s :: s in sessions && e in ChainEdges(sequence, SessionItems(items, sequence, s))
  {
    if sessions != [] {
      var init, last := sessions[..|sessions| - 1], sessions[|sessions| - 1];
      assert sessions == init + [last];
      SequenceMembers(sequence, items, init, e);
      if s :| s in init && e in ChainEdges(sequence, SessionItems(items, sequence, s)) {
        assert s in sessions;
      }
      assert last in sessions;
    }
  }

  lemma KindDrafts(sequence: Sequence, items: seq<Item>, e: Edge)
    ensures e in Drafts(items) && e.kind == KindOf(sequence) <==>
            e in SequenceEdges(sequence, items, KeysInOrder(items, SessionKey(sequence)))
  {
    ReplayReasons(items);
    ReplyReasons(items, items);
    SequenceReasons(Auth, items, KeysInOrder(items, SessionKey(Auth)));
    SequenceReasons(Reconnect, items, KeysInOrder(items, SessionKey(Reconnect)));
    CorrelationPairs(items, KeysInOrder(items, KeyOfCorrelation));
  }

  /** `e` links two neighbours of one session that are near enough. */
  ghost predicate LinksNeighbours(sequence: Sequence, items: seq<Item>, e: Edge, session: EntityId, m: nat) {
    var members := SessionItems(items, sequence, session);
    && m < |members| - 1 && Near(sequence, members[m], members[m + 1])
    && e == SequenceEdge(sequence, members[m], members[m + 1])
  }

  lemma EdgeLinksNeighbours(sequence: Sequence, items: seq<Item>, e: Edge) returns (session: EntityId, m: nat)
    requires e in Relationships(items) && e.kind == KindOf(sequence)
    ensures LinksNeighbours(sequence, items, e, session, m)
  {
    AcceptedEdges(items, Drafts(items));
    KindDrafts(sequence, items, e);
    var sessions := KeysInOrder(items, SessionKey(sequence));
    SequenceMembers(sequence, items, sessions, e);
    session :| session in sessions && e in ChainEdges(sequence, SessionItems(items, sequence, session));
    var members := SessionItems(items, sequence, session);
    ChainMembers(sequence, members, e);
    m :| 0 <= m < |members| - 1 && e in Link(sequence, members[m], members[m + 1]);
  }

  lemma NeighboursAreLinked(sequence: Sequence, items: seq<Item>, session: EntityId, m: nat)
    requires m < |SessionItems(items, sequence, session)| - 1
    requires var members := SessionItems(items, sequence, session);
             && Near(sequence, members[m], members[m + 1])
             && Acceptable(items, SequenceEdge(sequence, members[m], members[m + 1]))
    ensures var members := SessionItems(items, sequence, session);
            SequenceEdge(sequence, members[m], members[m + 1]) in Relationships(items)
  {
    var members := SessionItems(items, sequence, session);
    var e := SequenceEdge(sequence, members[m], members[m + 1]);
    assert e in Link(sequence, members[m], members[m + 1]);
    ChainMembers(sequence, members, e);
    MembersHaveKey(items, SessionKey(sequence), session);
    assert members[m] in members;
    KeysAreComplete(items, SessionKey(sequence));
    var sessions := KeysInOrder(items, SessionKey(sequence));
    assert session in sessions;
    SequenceMembers(sequence, items, sessions, e);
    KindDrafts(sequence, items, e);
    AcceptedEdges(items, Drafts(items));
  }

  // -- Items of a packet list with distinct ids ----------------------------------------------------

  ghost predicate IdsDiffer(packets: seq<Packet>) {
    forall i, j :: 0 <= i < j < |packets| ==> packets[i].id != packets[j].id
  }

  ghost predicate ItemsDiffer(items: seq<Item>) {
    forall i, j :: 0 <= i < j < |items| ==> items[i].packet.id != items[j].packet.id
  }

  function IdOf(p: Packet): EntityId { p.id }

  lemma MetadataDiffers(packets: seq<Packet>, read: Reader)
    requires IdsDiffer(packets)
    ensures ItemsDiffer(Metadata(packets, read))
  {
    var items, sorted := Metadata(packets, read), SortOldestFirst(packets);
    SortPermutes(packets, Oldest);
    MapPermutes(sorted, packets, IdOf);
    NoDuplicatesIsContents(Map(packets, IdOf), Map(sorted, IdOf));
    forall i, j | 0 <= i < j < |items| ensures items[i].packet.id != items[j].packet.id {
      assert items[i] == ToItem(read)(sorted[i]) && items[j] == ToItem(read)(sorted[j]);
      assert Map(sorted, IdOf)[i] != Map(sorted, IdOf)[j];
    }
  }

  lemma {:induction false} MembersDiffer<K(!new)>(items: seq<Item>, key: Item -> Option<K>, k: K)
    requires ItemsDiffer(items)
    ensures ItemsDiffer(Members(items, key, k))
    ensures forall x :: x in Members(items, key, k) <==> x in items && key(x) == Some(k)
    decreases |items|
  {
    if items != [] {
      var init, last := items[..|items| - 1], items[|items| - 1];
      assert items == init + [last];
      MembersDiffer(init, key, k);
      var before, members := Members(init, key, k), Members(items, key, k);
      forall i, j | 0 <= i < j < |members| ensures members[i].packet.id != members[j].packet.id {
        if j == |before| {
          assert before[i] in init;
        }
      }
    }
  }

  lemma LookupIsItem(items: seq<Item>, x: Item)
    requires ItemsDiffer(items) && x in items
    ensures Lookup(items, x.packet.id) == Some(x)
  {
    LookupFinds(items, x.packet.id);
  }

  /** An id stands at one place only, in one session. */
  lemma OnePlace(items: seq<Item>, sequence: Sequence, s: EntityId, i: nat, t: EntityId, j: nat)
    requires ItemsDiffer(items)
    requires i < |SessionItems(items, sequence, s)| && j < |SessionItems(items, sequence, t)|
    requires IdAt(SessionItems(items, sequence, s), i) == IdAt(SessionItems(items, sequence, t), j)
    ensures s == t && i == j
  {
    var these, those := SessionItems(items, sequence, s), SessionItems(items, sequence, t);
    MembersDiffer(items, SessionKey(sequence), s);
    MembersDiffer(items, SessionKey(sequence), t);
    assert these[i] in these && those[j] in those;
    assert these[i] == those[j];
  }

  // -- Links and neighbours --------------------------------------------------------------------------

  /** `b` stands next to place `x`, near enough. */
  ghost predicate IsNeighbour(sequence: Sequence, members: seq<Item>, x: nat, b: EntityId)
    requires x < |members|
  {
    || (x + 1 < |members| && b == IdAt(members, x + 1) && Near(sequence, members[x], members[x + 1]))
    || (x > 0 && b == IdAt(members, x - 1) && Near(sequence, members[x - 1], members[x]))
  }

  /** The links of `members` are exactly those between near neighbours. */
  ghost predicate LinksRuns(edges: seq<Edge>, sequence: Sequence, members: seq<Item>) {
    && ItemsDiffer(members)
    && forall x, b :: 0 <= x < |members| ==>
         (Linked(edges, KindOf(sequence), IdAt(members, x), b) <==> IsNeighbour(sequence, members, x, b))
  }

  lemma NearIsLinked(sequence: Sequence, items: seq<Item>, session: EntityId, m: nat)
    requires ItemsDiffer(items) && m < |SessionItems(items, sequence, session)| - 1
    requires var members := SessionItems(items, sequence, session); Near(sequence, members[m], members[m + 1])
    ensures var members := SessionItems(items, sequence, session);
            && Linked(Relationships(items), KindOf(sequence), IdAt(members, m), IdAt(members, m + 1))
            && Linked(Relationships(items), KindOf(sequence), IdAt(members, m + 1), IdAt(members, m))
  {
    var members, kind := SessionItems(items, sequence, session), KindOf(sequence);
    MembersDiffer(items, SessionKey(sequence), session);
    assert members[m] in members && members[m + 1] in members;
    LookupIsItem(items, members[m]);
    LookupIsItem(items, members[m + 1]);
    NeighboursAreLinked(sequence, items, session, m);
  }

  lemma EdgeIsNear(sequence: Sequence, items: seq<Item>, session: EntityId, x: nat, e: Edge)
    requires ItemsDiffer(items) && x < |SessionItems(items, sequence, session)|
    requires e in Relationships(items) && e.kind == KindOf(sequence)
    ensures var members := SessionItems(items, sequence, session);
            && (e.source == IdAt(members, x) ==> IsNeighbour(sequence, members, x, e.target))
            && (e.target == IdAt(members, x) ==> IsNeighbour(sequence, members, x, e.source))
  {
    var a := IdAt(SessionItems(items, sequence, session), x);
    var s, m := EdgeLinksNeighbours(sequence, items, e);
    if e.source == a {
      OnePlace(items, sequence, session, x, s, m);
    }
    if e.target == a {
      OnePlace(items, sequence, session, x, s, m + 1);
    }
  }

  lemma LinkedIsNear(sequence: Sequence, items: seq<Item>, session: EntityId, x: nat, b: EntityId)
    requires ItemsDiffer(items) && x < |SessionItems(items, sequence, session)|
    requires Linked(Relationships(items), KindOf(sequence), IdAt(SessionItems(items, sequence, session), x), b)
    ensures IsNeighbour(sequence, SessionItems(items, sequence, session), x, b)
  {
    var a := IdAt(SessionItems(items, sequence, session), x);
    var e :| e in Relationships(items) && e.kind == KindOf(sequence)
             && ((e.source == a && e.target == b) || (e.source == b && e.target == a));
    EdgeIsNear(sequence, items, session, x, e);
  }

  lemma IndexLinksRuns(sequence: Sequence, items: seq<Item>, session: EntityId)
    requires ItemsDiffer(items)
    ensures LinksRuns(Relationships(items), sequence, SessionItems(items, sequence, session))
  {
    var members, edges, kind := SessionItems(items, sequence, session), Relationships(items), KindOf(sequence);
    MembersDiffer(items, SessionKey(sequence), session);
    forall x, b | 0 <= x < |members|
      ensures Linked(edges, kind, IdAt(members, x), b) <==> IsNeighbour(sequence, members, x, b)
    {
      if Linked(edges, kind, IdAt(members, x), b) {
        LinkedIsNear(sequence, items, session, x, b);
      }
      if x + 1 < |members| && Near(sequence, members[x], members[x + 1]) {
        NearIsLinked(sequence, items, session, x);
      }
      if x > 0 && Near(sequence, members[x - 1], members[x]) {
        NearIsLinked(sequence, items, session, x - 1);
      }
    }
  }

  // -- A chain is joined, a gap separates ---------------------------------------------------------------

  lemma {:induction false} ChainReaches(edges: seq<Edge>, sequence: Sequence, members: seq<Item>, i: nat, j: nat)
    requires LinksRuns(edges, sequence, members) && i <= j < |members| && Chained(sequence, members, i, j)
    ensures Reaches(edges, KindOf(sequence), IdAt(members, i), IdAt(members, j))
    decreases j - i
  {
    if i == j {
      ReachesItself(edges, KindOf(sequence), IdAt(members, i));
    } else {
      ChainReaches(edges, sequence, members, i, j - 1);
      assert Near(sequence, members[j - 1], members[j - 1 + 1]);
      assert IsNeighbour(sequence, members, j - 1, IdAt(members, j));
      ReachesNext(edges, KindOf(sequence), IdAt(members, i), IdAt(members, j - 1), IdAt(members, j));
    }
  }

  /** The ids of the first `n` items. */
  ghost function FirstIds(items: seq<Item>, n: nat): iset<EntityId>
    requires n <= |items|
  {
    iset id | StandsBefore(items, n, id)
  }

  ghost predicate StandsBefore(items: seq<Item>, n: nat, id: EntityId)
    requires n <= |items|
  {
    exists x :: 0 <= x < n && IdAt(items, x) == id
  }

  /** Nothing links item `k` to item `k + 1`. */
  ghost predicate Broken(sequence: Sequence, members: seq<Item>, k: nat)
    requires k < |members| - 1
  {
    !Near(sequence, members[k], members[k + 1]) || IdAt(members, k) == "" || IdAt(members, k + 1) == ""
  }

  lemma FirstIdsAreClosed(edges: seq<Edge>, sequence: Sequence, members: seq<Item>, k: nat)
    requires LinksRuns(edges, sequence, members) && k < |members| - 1 && Broken(sequence, members, k)
    ensures ClosedUnder(edges, KindOf(sequence), FirstIds(members, k + 1))
  {
    var first := FirstIds(members, k + 1);
    forall a, b | a in first && a != "" && b != "" && Linked(edges, KindOf(sequence), a, b) ensures b in first {
      var x :| 0 <= x < k + 1 && IdAt(members, x) == a;
      assert IsNeighbour(sequence, members, x, b);
      if x + 1 < |members| && b == IdAt(members, x + 1) && Near(sequence, members[x], members[x + 1]) {
        assert x != k;
      } else {
        assert b == IdAt(members, x - 1);
      }
    }
  }

  lemma GapSeparates(edges: seq<Edge>, sequence: Sequence, members: seq<Item>, i: nat, k: nat, j: nat)
    requires LinksRuns(edges, sequence, members) && i <= k < j < |members| && Broken(sequence, members, k)
    ensures !Reaches(edges, KindOf(sequence), IdAt(members, i), IdAt(members, j))
  {
    if Reaches(edges, KindOf(sequence), IdAt(members, i), IdAt(members, j)) {
      FirstIdsAreClosed(edges, sequence, members, k);
      StaysInside(edges, KindOf(sequence), FirstIds(members, k + 1), IdAt(members, i), IdAt(members, j));
    }
  }

  lemma JoinedIffChained(edges: seq<Edge>, sequence: Sequence, members: seq<Item>, i: nat, j: nat)
    requires LinksRuns(edges, sequence, members) && i < j < |members|
    ensures Reaches(edges, KindOf(sequence), IdAt(members, i), IdAt(members, j)) <==> Chained(sequence, members, i, j)
  {
    if Chained(sequence, members, i, j) {
      ChainReaches(edges, sequence, members, i, j);
    } else {
      var k := BreakIn(sequence, members, i, j);
      GapSeparates(edges, sequence, members, i, k, j);
    }
  }

  lemma BreakIn(sequence: Sequence, members: seq<Item>, i: nat, j: nat) returns (k: nat)
    requires i < j < |members| && !Chained(sequence, members, i, j)
    ensures i <= k < j && Broken(sequence, members, k)
  {
    if x :| i <= x < j && !Near(sequence, members[x], members[x + 1]) {
      k := x;
    } else {
      var x :| i <= x <= j && IdAt(members, x) == "";
      k := if x == j then j - 1 else x;
    }
  }

  // -- Flows ------------------------------------------------------------------------------------------

  /** `a` and `b` stand at two places of one session's packets with only near
      neighbours from one to the other. */
  ghost predicate InOneRun(sequence: Sequence, items: seq<Item>, a: EntityId, b: EntityId) {
    exists session, i, j :: RunFrom(sequence, SessionItems(items, sequence, session), i, j, a, b)
                            || RunFrom(sequence, SessionItems(items, sequence, session), i, j, b, a)
  }

  ghost predicate RunFrom(sequence: Sequence, members: seq<Item>, i: nat, j: nat, a: EntityId, b: EntityId) {
    i < j < |members| && IdAt(members, i) == a && IdAt(members, j) == b && Chained(sequence, members, i, j)
  }

  lemma ReachedStandsInSession(
    sequence: Sequence, items: seq<Item>, a: EntityId, b: EntityId)
    returns (session: EntityId, i: nat, j: nat)
    requires ItemsDiffer(items) && a != b && Reaches(Relationships(items), KindOf(sequence), a, b)
    ensures var members := SessionItems(items, sequence, session);
            i < |members| && j < |members| && IdAt(members, i) == a && IdAt(members, j) == b
  {
    var edges, kind := Relationships(items), KindOf(sequence);
    session, i := LinkedStandsInSession(sequence, items, a, FirstStep(edges, kind, a, b));
    var members := SessionItems(items, sequence, session);
    IndexLinksRuns(sequence, items, session);
    AllIdsAreClosed(edges, sequence, members);
    assert StandsBefore(members, |members|, a);
    StaysInside(edges, kind, FirstIds(members, |members|), a, b);
    j :| 0 <= j < |members| && IdAt(members, j) == b;
  }

  ghost function FirstStep(edges: seq<Edge>, kind: Kind, a: EntityId, b: EntityId): (next: EntityId)
    requires a != b && Reaches(edges, kind, a, b)
    ensures Linked(edges, kind, a, next)
  {
    var walk :| WalkFrom(edges, kind, walk, a, b);
    assert Linked(edges, kind, walk[0], walk[1]);
    walk[1]
  }

  lemma LinkedStandsInSession(sequence: Sequence, items: seq<Item>, a: EntityId, b: EntityId)
    returns (session: EntityId, i: nat)
    requires Linked(Relationships(items), KindOf(sequence), a, b)
    ensures i < |SessionItems(items, sequence, session)| && IdAt(SessionItems(items, sequence, session), i) == a
  {
    var e :| e in Relationships(items) && e.kind == KindOf(sequence)
             && ((e.source == a && e.target == b) || (e.source == b && e.target == a));
    var m;
    session, m := EdgeLinksNeighbours(sequence, items, e);
    i := if e.source == a then m else m + 1;
  }

  lemma AllIdsAreClosed(edges: seq<Edge>, sequence: Sequence, members: seq<Item>)
    requires LinksRuns(edges, sequence, members)
    ensures ClosedUnder(edges, KindOf(sequence), FirstIds(members, |members|))
  {
    var all := FirstIds(members, |members|);
    forall a, b | a in all && a != "" && b != "" && Linked(edges, KindOf(sequence), a, b) ensures b in all {
      var x :| 0 <= x < |members| && IdAt(members, x) == a;
      assert IsNeighbour(sequence, members, x, b);
    }
  }

  lemma ReachesIffInOneRun(sequence: Sequence, items: seq<Item>, a: EntityId, b: EntityId)
    requires ItemsDiffer(items) && a != b
    ensures Reaches(Relationships(items), KindOf(sequence), a, b) <==> InOneRun(sequence, items, a, b)
  {
    var edges, kind := Relationships(items), KindOf(sequence);
    if Reaches(edges, kind, a, b) {
      var session, i, j := ReachedStandsInSession(sequence, items, a, b);
      ReachesIsSymmetric(edges, kind, a, b);
      RunBetween(sequence, items, session, i, j);
    }
    if session, i, j :| RunFrom(sequence, SessionItems(items, sequence, session), i, j, a, b)
                        || RunFrom(sequence, SessionItems(items, sequence, session), i, j, b, a) {
      IndexLinksRuns(sequence, items, session);
      JoinedIffChained(edges, sequence, SessionItems(items, sequence, session), i, j);
      ReachesIsSymmetric(edges, kind, IdAt(SessionItems(items, sequence, session), i),
                         IdAt(SessionItems(items, sequence, session), j));
    }
  }

  lemma RunBetween(sequence: Sequence, items: seq<Item>, session: EntityId, i: nat, j: nat)
    requires ItemsDiffer(items) && i != j
    requires i < |SessionItems(items, sequence, session)| && j < |SessionItems(items, sequence, session)|
    requires var members := SessionItems(items, sequence, session);
             && Reaches(Relationships(items), KindOf(sequence), IdAt(members, i), IdAt(members, j))
             && Reaches(Relationships(items), KindOf(sequence), IdAt(members, j), IdAt(members, i))
    ensures var members := SessionItems(items, sequence, session);
            InOneRun(sequence, items, IdAt(members, i), IdAt(members, j))
  {
    var members := SessionItems(items, sequence, session);
    IndexLinksRuns(sequence, items, session);
    if i < j {
      JoinedIffChained(Relationships(items), sequence, members, i, j);
      assert RunFrom(sequence, members, i, j, IdAt(members, i), IdAt(members, j));
    } else {
      JoinedIffChained(Relationships(items), sequence, members, j, i);
      assert RunFrom(sequence, members, j, i, IdAt(members, j), IdAt(members, i));
    }
  }

  lemma NoEdgesWithoutTwo(items: seq<Item>)
    requires |items| < 2
    ensures Relationships(items) == []
  {
    AcceptedEdges(items, Drafts(items));
    if Relationships(items) != [] {
      var e := Relationships(items)[0];
      assert e in Relationships(items);
      LookupFinds(items, e.source);
      LookupFinds(items, e.target);
    }
  }

  /** The components collected from a packet list's index are exactly its maximal runs:
      two ids share a component iff their packets belong to one session's auth (or
      reconnect) packets, every gap between them, in time order, is within the window,
      and no id from the one to the other is empty. */
  lemma FlowsAreRuns(packets: seq<Packet>, read: Reader, sequence: Sequence, components: seq<seq<EntityId>>)
    requires IdsDiffer(packets)
    requires AreComponents(BuildIndex(packets, read).relationships, KindOf(sequence), components)
    ensures forall a, b :: a != b ==>
              (Together(components, a, b) <==> InOneRun(sequence, Metadata(packets, read), a, b))
  {
    var items := Metadata(packets, read);
    MetadataDiffers(packets, read);
    IndexParts(packets, read);
    if |packets| < 2 {
      NoEdgesWithoutTwo(items);
    }
    forall a, b | a != b ensures Together(components, a, b) <==> InOneRun(sequence, items, a, b) {
      ReachesIffInOneRun(sequence, items, a, b);
    }
  }
}
