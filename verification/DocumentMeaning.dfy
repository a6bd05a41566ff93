/** What an exported document says of the packets it was made from. */
module DocumentMeaning {
  import opened Sequences
  import opened Models
  import opened Grouping
  import opened DocumentKeys
  import opened AsyncApi

  // -- Events heard -----------------------------------------------------------------------------

  /** A packet without an event name counts as an unknown event. */
  predicate IsHeard(p: Packet, read: EventReader, direction: Direction, name: string) {
    var found := read(p.payload, p.payloadKind);
    p.direction == direction && ((found != "" && name == found) || (found == "" && name == "unknown.event"))
  }

  function TimesHeard(packets: seq<Packet>, read: EventReader, direction: Direction, name: string): nat {
    if packets == [] then 0
    else (if IsHeard(packets[0], read, direction, name) then 1 else 0)
         + TimesHeard(packets[1..], read, direction, name)
  }

  lemma {:induction false} TimesHeardLast(
    packets: seq<Packet>, last: Packet, read: EventReader, direction: Direction, name: string)
    ensures TimesHeard(packets + [last], read, direction, name)
            == TimesHeard(packets, read, direction, name) + if IsHeard(last, read, direction, name) then 1 else 0
  {
    if packets == [] {
      assert [] + [last] == [last] && [last][1..] == [];
    } else {
      assert (packets + [last])[1..] == packets[1..] + [last];
      TimesHeardLast(packets[1..], last, read, direction, name);
    }
  }

  lemma HeardIff(p: Packet, read: EventReader, direction: Direction, name: string)
    ensures KeyOfEvent(read)(p) == Some(EventKey(direction, name)) <==> IsHeard(p, read, direction, name)
  {
  }

  lemma {:induction false} MembersAreHeard(
    packets: seq<Packet>, read: EventReader, direction: Direction, name: string)
    ensures |Members(packets, KeyOfEvent(read), EventKey(direction, name))|
            == TimesHeard(packets, read, direction, name)
    decreases |packets|
  {
    if packets != [] {
      var init, last := packets[..|packets| - 1], packets[|packets| - 1];
      assert packets == init + [last];
      MembersAreHeard(init, read, direction, name);
      TimesHeardLast(init, last, read, direction, name);
      HeardIff(last, read, direction, name);
    }
  }

  // -- Groups -------------------------------------------------------------------------------------

  /** The group counts the packets of its event and shows the first of them. */
  ghost predicate ShowsEvent(group: EventGroup, packets: seq<Packet>, read: EventReader) {
    && group.packetCount == TimesHeard(packets, read, group.direction, group.eventName)
    && exists i :: 0 <= i < |packets| && group.examples == [packets[i]] && group.payloadKind == packets[i].payloadKind
                   && IsHeard(packets[i], read, group.direction, group.eventName)
                   && forall x :: 0 <= x < i ==> !IsHeard(packets[x], read, group.direction, group.eventName)
  }

  function GroupFor(packets: seq<Packet>, read: EventReader, key: EventKey): EventGroup
    requires Members(packets, KeyOfEvent(read), key) != []
  {
    GroupOf(key, Members(packets, KeyOfEvent(read), key))
  }

  lemma GroupForShows(packets: seq<Packet>, read: EventReader, key: EventKey)
    requires Members(packets, KeyOfEvent(read), key) != []
    ensures ShowsEvent(GroupFor(packets, read, key), packets, read)
    ensures GroupFor(packets, read, key).direction == key.direction
    ensures GroupFor(packets, read, key).eventName == key.eventName
  {
    var i := FirstMember(packets, KeyOfEvent(read), key);
    HeardIff(packets[i], read, key.direction, key.eventName);
    forall x | 0 <= x < i ensures !IsHeard(packets[x], read, key.direction, key.eventName) {
      HeardIff(packets[x], read, key.direction, key.eventName);
    }
    MembersAreHeard(packets, read, key.direction, key.eventName);
  }

  lemma {:induction false} GroupsAreOfKeys(
    packets: seq<Packet>, read: EventReader, order: seq<EventKey>, group: EventGroup)
    requires forall k :: k in order ==> Members(packets, KeyOfEvent(read), k) != []
    ensures group in GroupsInOrder(packets, read, order) <==>
            exists k :: k in order && group == GroupFor(packets, read, k)
  {
    if order != [] {
      GroupsAreOfKeys(packets, read, order[1..], group);
      if group in GroupsInOrder(packets, read, order[1..]) {
        var k :| k in order[1..] && group == GroupFor(packets, read, k);
        assert k in order;
      } else if group == GroupFor(packets, read, order[0]) {
        assert order[0] in order;
      }
      if k :| k in order && group == GroupFor(packets, read, k) {
        assert k == order[0] || k in order[1..];
      }
    }
  }

  lemma InGroups(packets: seq<Packet>, read: EventReader, rank: Collation, group: EventGroup)
    ensures group in SortGroups(EventGroups(packets, read), rank) <==>
            exists k :: k in KeysInOrder(packets, KeyOfEvent(read))
                        && Members(packets, KeyOfEvent(read), k) != [] && group == GroupFor(packets, read, k)
  {
    var groups := EventGroups(packets, read);
    KeysHaveMembers(packets, read);
    GroupsAreOfKeys(packets, read, KeysInOrder(packets, KeyOfEvent(read)), group);
    SortPermutes(groups, ByName(rank));
    SortPermutes(Sort(groups, ByName(rank)), MostPackets);
  }

  /** Every group shows an event of the packets. */
  lemma GroupsShowEvents(packets: seq<Packet>, read: EventReader, rank: Collation, group: EventGroup)
    requires group in SortGroups(EventGroups(packets, read), rank)
    ensures ShowsEvent(group, packets, read)
  {
    InGroups(packets, read, rank, group);
    var k :| Members(packets, KeyOfEvent(read), k) != [] && group == GroupFor(packets, read, k);
    GroupForShows(packets, read, k);
  }

  /** And every event of the packets has its group. */
  lemma EventsAreGrouped(
    packets: seq<Packet>, read: EventReader, rank: Collation, p: Packet, direction: Direction, name: string)
    returns (group: EventGroup)
    requires p in packets && IsHeard(p, read, direction, name)
    ensures group in SortGroups(EventGroups(packets, read), rank)
    ensures group.direction == direction && group.eventName == name && ShowsEvent(group, packets, read)
  {
    var key := EventKey(direction, name);
    HeardIff(p, read, direction, name);
    KeysAreComplete(packets, KeyOfEvent(read));
    KeysHaveMembers(packets, read);
    group := GroupFor(packets, read, key);
    InGroups(packets, read, rank, group);
    GroupForShows(packets, read, key);
  }

  // -- Entries --------------------------------------------------------------------------------------

  /** The key was made from this name: cleaned, and numbered if it was taken. */
  ghost predicate IsKeyFor(key: string, name: string) {
    exists n :: n >= 1 && key == Candidate(SanitizeDocumentKey(name), n)
  }

  lemma {:induction false} KeysAreForTheirNames(names: seq<string>, inherited: set<string>, i: nat)
    requires i < |names|
    ensures |KeysFor(names, inherited)| == |names| && IsKeyFor(KeysFor(names, inherited)[i], names[i])
  {
    KeysForAreDistinct(names, inherited);
    var before := KeysFor(names[..|names| - 1], inherited);
    KeysForAreDistinct(names[..|names| - 1], inherited);
    if i < |names| - 1 {
      KeysAreForTheirNames(names[..|names| - 1], inherited, i);
    } else {
      var n := FirstFree(ToSet(before) + inherited, SanitizeDocumentKey(names[i]), 1);
      assert KeysFor(names, inherited)[i] == Candidate(SanitizeDocumentKey(names[i]), n);
    }
  }

  /** The three entries of a group: a channel at the event's name, an operation that
      receives what came in and sends what went out, and the message they lead to. */
  predicate AreEntriesOf(
    channels: map<string, Channel>, messages: map<string, Message>, operations: map<string, Operation>,
    group: EventGroup, c: string, m: string, o: string)
  {
    && c in channels && m in messages && o in operations
    && channels[c] ==
       Channel(group.eventName, group.direction, map[m := "#/components/messages/" + m], group.packetCount)
    && operations[o] ==
       Operation(match group.direction case Inbound => Receive case Outbound => Send,
                 "#/channels/" + c, group.direction, group.packetCount)
    && messages[m].name == group.eventName && messages[m].direction == group.direction
    && messages[m].packetCount == group.packetCount && messages[m].payloadKind == group.payloadKind
    && (|group.examples| >= 1 ==> messages[m].example == Some(group.examples[0]))
    && (group.examples == [] ==> messages[m].example == None)
  }

  predicate AreNamedAfter(group: EventGroup, channelName: string, operationName: string) {
    match group.direction
    case Inbound => channelName == group.eventName + "-inbound" && operationName == "receive-" + group.eventName
    case Outbound => channelName == group.eventName + "-outbound" && operationName == "send-" + group.eventName
  }

  lemma NamesOfGroup(group: EventGroup)
    ensures AreNamedAfter(group, ChannelName(group), OperationName(group))
  {
    assert "receive" + "-" + group.eventName == "receive-" + group.eventName;
    assert "send" + "-" + group.eventName == "send-" + group.eventName;
    assert group.eventName + "-" + "inbound" == group.eventName + "-inbound";
    assert group.eventName + "-" + "outbound" == group.eventName + "-outbound";
  }

  /** Every exported group has its three entries, under keys made from its event. */
  lemma GroupsAreDocumented(
    channels: map<string, Channel>, messages: map<string, Message>, operations: map<string, Operation>,
    groups: seq<EventGroup>, inherited: set<string>, i: nat)
    returns (c: string, m: string, o: string, channelName: string, operationName: string)
    requires Documents(channels, messages, operations, groups, inherited) && i < |groups|
    ensures AreEntriesOf(channels, messages, operations, groups[i], c, m, o)
    ensures AreNamedAfter(groups[i], channelName, operationName)
    ensures IsKeyFor(c, channelName) && IsKeyFor(m, groups[i].eventName) && IsKeyFor(o, operationName)
  {
    var cs, ms, os := ChannelKeys(groups, inherited), MessageKeys(groups, inherited), OperationKeys(groups, inherited);
    KeysAreForTheirNames(Map(groups, ChannelName), inherited, i);
    KeysAreForTheirNames(Map(groups, MessageName), inherited, i);
    KeysAreForTheirNames(Map(groups, OperationName), inherited, i);
    ZipAt(groups, ms, ChannelOf, i);
    ZipAt(groups, cs, OperationOf, i);
    NamesOfGroup(groups[i]);
    c, m, o, channelName, operationName := cs[i], ms[i], os[i], ChannelName(groups[i]), OperationName(groups[i]);
    assert c in channels && channels[c] == ChannelOf(groups[i], m);
    assert m in messages && messages[m] == MessageOf(groups[i]);
    assert o in operations && operations[o] == OperationOf(groups[i], c);
  }

  /** The document of a session: the first 80 events of its packets, each with its three
      entries, its number of packets and its first packet as the example. */
  lemma EventsAreDocumented(
    packets: seq<Packet>, read: EventReader, rank: Collation, inherited: set<string>, i: nat,
    channels: map<string, Channel>, messages: map<string, Message>, operations: map<string, Operation>)
    returns (c: string, m: string, o: string, channelName: string, operationName: string)
    requires var groups := SortGroups(EventGroups(packets, read), rank);
             i < |groups| && i < 80 && Documents(channels, messages, operations, Exported(groups), inherited)
    ensures var group := SortGroups(EventGroups(packets, read), rank)[i];
            && ShowsEvent(group, packets, read)
            && AreEntriesOf(channels, messages, operations, group, c, m, o)
            && AreNamedAfter(group, channelName, operationName)
            && IsKeyFor(c, channelName) && IsKeyFor(m, group.eventName) && IsKeyFor(o, operationName)
  {
    var groups := SortGroups(EventGroups(packets, read), rank);
    assert Exported(groups)[i] == groups[i] && groups[i] in groups;
    GroupsShowEvents(packets, read, rank, groups[i]);
    c, m, o, channelName, operationName :=
      GroupsAreDocumented(channels, messages, operations, Exported(groups), inherited, i);
  }

  /** No more than 80 are. */
  lemma AtMostEighty(groups: seq<EventGroup>)
    ensures |Exported(groups)| <= 80 && Exported(groups) <= groups
    ensures |groups| <= 80 ==> Exported(groups) == groups
  {
  }

  /** Exactly the session's packets are heard, oldest first. */
  lemma OnlyTheSession(packets: seq<Packet>, session: EntityId)
    ensures var heard := SessionPackets(packets, session);
            && SortedBy(heard, Oldest)
            && forall p :: p in heard <==> p in packets && p.sessionId == session
  {
    SortSorts(Filter(packets, InSession(session)), Oldest);
    SortPermutes(Filter(packets, InSession(session)), Oldest);
    FilterMembers(packets, InSession(session));
  }
}
