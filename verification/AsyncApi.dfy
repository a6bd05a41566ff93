/** The experimental AsyncAPI export: packets grouped by event, and the channels,
    operations and messages written for the groups. */
module AsyncApi {
  import opened Sequences
  import opened Models
  import opened Grouping
  import opened DocumentKeys

  /** The event name the decoder finds in a payload; empty when there is none. */
  type EventReader = (string, PayloadKind) -> string

  /** Stands for `localeCompare`: any order of names that is total up to ties. */
  type Collation = string -> real

  datatype EventKey = EventKey(direction: Direction, eventName: string)

  datatype EventGroup = EventGroup(
    direction: Direction, eventName: string, examples: seq<Packet>, packetCount: nat, payloadKind: PayloadKind)

  const MAX_EVENT_GROUPS := 80
  const MAX_EXAMPLES_PER_EVENT := 1

  // -- Grouping -----------------------------------------------------------------------------

  function EventNameOf(p: Packet, read: EventReader): string {
    var name := read(p.payload, p.payloadKind);
    if name == "" then "unknown.event" else name
  }

  function KeyOfEvent(read: EventReader): Packet -> Option<EventKey> {
    (p: Packet) => Some(EventKey(p.direction, EventNameOf(p, read)))
  }

  /** The group of the packets with one key, of which the first is the example. */
  function GroupOf(key: EventKey, packets: seq<Packet>): EventGroup
    requires packets != []
  {
    EventGroup(key.direction, key.eventName, [packets[0]], |packets|, packets[0].payloadKind)
  }

  ghost predicate HoldsGroups(
    groups: map<EventKey, EventGroup>, order: seq<EventKey>, packets: seq<Packet>, read: EventReader)
  {
    && order == KeysInOrder(packets, KeyOfEvent(read))
    && (forall k :: k in groups <==> k in order)
    && forall k :: if k in groups
                   then Members(packets, KeyOfEvent(read), k) != []
                        && groups[k] == GroupOf(k, Members(packets, KeyOfEvent(read), k))
                   else Members(packets, KeyOfEvent(read), k) == []
  }

  function AddToGroup(groups: map<EventKey, EventGroup>, key: EventKey, p: Packet): map<EventKey, EventGroup> {
    if key in groups then
      var group := groups[key];
      groups[key := group.(packetCount := group.packetCount + 1,
                           examples := if |group.examples| < MAX_EXAMPLES_PER_EVENT
                                       then group.examples + [p] else group.examples)]
    else
      groups[key := EventGroup(p.direction, key.eventName, [p], 1, p.payloadKind)]
  }

  lemma MembersGrow(packets: seq<Packet>, p: Packet, read: EventReader, k: EventKey)
    ensures Members(packets + [p], KeyOfEvent(read), k)
            == Members(packets, KeyOfEvent(read), k) + if KeyOfEvent(read)(p) == Some(k) then [p] else []
  {
    assert (packets + [p])[..|packets|] == packets;
  }

  lemma GroupsGrow(
    groups: map<EventKey, EventGroup>, order: seq<EventKey>, packets: seq<Packet>, read: EventReader, p: Packet)
    requires HoldsGroups(groups, order, packets, read)
    ensures var key := EventKey(p.direction, EventNameOf(p, read));
            HoldsGroups(AddToGroup(groups, key, p), if key in groups then order else order + [key], packets + [p], read)
  {
    var key := EventKey(p.direction, EventNameOf(p, read));
    var after := AddToGroup(groups, key, p);
    assert (packets + [p])[..|packets|] == packets;
    forall k
      ensures if k in after
              then Members(packets + [p], KeyOfEvent(read), k) != []
                   && after[k] == GroupOf(k, Members(packets + [p], KeyOfEvent(read), k))
              else Members(packets + [p], KeyOfEvent(read), k) == []
    {
      MembersGrow(packets, p, read, k);
    }
  }

  function Values(groups: map<EventKey, EventGroup>, order: seq<EventKey>): seq<EventGroup>
    requires forall k :: k in order ==> k in groups
  {
    if order == [] then [] else [groups[order[0]]] + Values(groups, order[1..])
  }

  function ByName(rank: Collation): EventGroup -> real { (group: EventGroup) => rank(group.eventName) }

  function MostPackets(group: EventGroup): real { -(group.packetCount as real) }

  /** Most packets first, names in order among equals: sorting by the second key and
      then, stably, by the first. */
  function SortGroups(groups: seq<EventGroup>, rank: Collation): seq<EventGroup> {
    Sort(Sort(groups, ByName(rank)), MostPackets)
  }

  ghost function GroupsInOrder(packets: seq<Packet>, read: EventReader, order: seq<EventKey>): seq<EventGroup>
    requires forall k :: k in order ==> Members(packets, KeyOfEvent(read), k) != []
  {
    if order == [] then []
    else [GroupOf(order[0], Members(packets, KeyOfEvent(read), order[0]))] + GroupsInOrder(packets, read, order[1..])
  }

  lemma KeysHaveMembers(packets: seq<Packet>, read: EventReader)
    ensures forall k :: k in KeysInOrder(packets, KeyOfEvent(read)) ==> Members(packets, KeyOfEvent(read), k) != []
  {
    var key := KeyOfEvent(read);
    KeysAreComplete(packets, key);
    forall k | k in KeysInOrder(packets, key) ensures Members(packets, key, k) != [] {
      MembersHaveKey(packets, key, k);
      var p :| p in packets && key(p) == Some(k);
      assert p in Members(packets, key, k);
    }
  }

  /** One group for every event key that occurs, in order of first occurrence. */
  ghost function EventGroups(packets: seq<Packet>, read: EventReader): seq<EventGroup> {
    KeysHaveMembers(packets, read);
    GroupsInOrder(packets, read, KeysInOrder(packets, KeyOfEvent(read)))
  }

  lemma {:induction false} ValuesAreGroups(
    groups: map<EventKey, EventGroup>, packets: seq<Packet>, read: EventReader, order: seq<EventKey>)
    requires forall k :: k in order ==>
               k in groups && Members(packets, KeyOfEvent(read), k) != []
               && groups[k] == GroupOf(k, Members(packets, KeyOfEvent(read), k))
    ensures Values(groups, order) == GroupsInOrder(packets, read, order)
  {
    if order != [] {
      ValuesAreGroups(groups, packets, read, order[1..]);
    }
  }

  method CreateEventGroups(packets: seq<Packet>, read: EventReader, rank: Collation) returns (groups: seq<EventGroup>)
    ensures groups == SortGroups(EventGroups(packets, read), rank)
  {
    var order: seq<EventKey>, groupsByKey: map<EventKey, EventGroup> := [], map[];
    for i := 0 to |packets|
      invariant HoldsGroups(groupsByKey, order, packets[..i], read)
    {
      var packet := packets[i];
      assert packets[..i + 1] == packets[..i] + [packet];
      var key := EventKey(packet.direction, EventNameOf(packet, read));
      GroupsGrow(groupsByKey, order, packets[..i], read, packet);
      order := if key in groupsByKey then order else order + [key];
      groupsByKey := AddToGroup(groupsByKey, key, packet);
    }
    assert packets[..|packets|] == packets;
    ValuesAreGroups(groupsByKey, packets, read, order);
    groups := SortGroups(Values(groupsByKey, order), rank);
  }

  /** Groups come out by packet count, largest first, and by name among equals. */
  lemma GroupsAreOrdered(groups: seq<EventGroup>, rank: Collation, i: nat, j: nat)
    requires i < j < |groups|
    ensures var sorted := SortGroups(groups, rank);
            || sorted[i].packetCount > sorted[j].packetCount
            || (sorted[i].packetCount == sorted[j].packetCount
                && rank(sorted[i].eventName) <= rank(sorted[j].eventName))
  {
    SortByTwoKeys(groups, MostPackets, ByName(rank), i, j);
  }

  // -- Counts -------------------------------------------------------------------------------------

  /** `groups.reduce((count, group) => count + group.packetCount, 0)`. */
  function CountOf(groups: seq<EventGroup>): nat {
    if groups == [] then 0 else CountOf(groups[..|groups| - 1]) + groups[|groups| - 1].packetCount
  }

  lemma {:induction false} CountAppend(first: seq<EventGroup>, second: seq<EventGroup>)
    ensures CountOf(first + second) == CountOf(first) + CountOf(second)
    decreases |second|
  {
    if second == [] {
      assert first + second == first;
    } else {
      var init := second[..|second| - 1];
      assert (first + second)[..|first + second| - 1] == first + init;
      CountAppend(first, init);
    }
  }

  lemma CountMiddle(front: seq<EventGroup>, group: EventGroup, back: seq<EventGroup>)
    ensures CountOf(front + ([group] + back)) == group.packetCount + CountOf(front + back)
  {
    CountAppend(front, [group] + back);
    CountAppend([group], back);
    CountAppend(front, back);
    assert [group][..0] == [];
  }

  lemma {:induction false} CountOfPermutation(xs: seq<EventGroup>, ys: seq<EventGroup>)
    requires multiset(xs) == multiset(ys)
    ensures CountOf(xs) == CountOf(ys)
  {
    if xs == [] {
      SameElements(xs, ys);
    } else {
      var front, back := TakeOut(xs, ys);
      CountOfPermutation(xs[1..], front + back);
      CountMiddle(front, xs[0], back);
      CountMiddle([], xs[0], xs[1..]);
      assert xs == [] + ([xs[0]] + xs[1..]) && [] + xs[1..] == xs[1..];
    }
  }

  lemma {:induction false} CountOfGroups(packets: seq<Packet>, read: EventReader, order: seq<EventKey>)
    requires forall k :: k in order ==> Members(packets, KeyOfEvent(read), k) != []
    ensures CountOf(GroupsInOrder(packets, read, order)) == TotalMembers(packets, KeyOfEvent(read), order)
  {
    if order != [] {
      CountOfGroups(packets, read, order[1..]);
      var group := GroupOf(order[0], Members(packets, KeyOfEvent(read), order[0]));
      CountAppend([group], GroupsInOrder(packets, read, order[1..]));
      assert [group][..0] == [];
    }
  }

  /** The groups' counts add up to the number of packets. */
  lemma CountsAddUp(packets: seq<Packet>, read: EventReader, rank: Collation)
    ensures CountOf(SortGroups(EventGroups(packets, read), rank)) == |packets|
  {
    var groups, order := EventGroups(packets, read), KeysInOrder(packets, KeyOfEvent(read));
    KeysHaveMembers(packets, read);
    CountOfGroups(packets, read, order);
    EveryItemIsCountedOnce(packets, KeyOfEvent(read));
    SortPermutes(groups, ByName(rank));
    SortPermutes(Sort(groups, ByName(rank)), MostPackets);
    CountOfPermutation(groups, SortGroups(groups, rank));
  }

  // -- The document -----------------------------------------------------------------------------------

  datatype Channel = Channel(address: string, direction: Direction, messages: map<string, string>, packetCount: nat)

  datatype Action = Receive | Send

  datatype Operation = Operation(action: Action, channelRef: string, direction: Direction, packetCount: nat)

  datatype Message = Message(
    direction: Direction, example: Option<Packet>, name: string, packetCount: nat, payloadKind: PayloadKind)

  datatype Document = Document(
    channels: map<string, Channel>, messages: map<string, Message>,
    operations: map<string, Operation>, packetCount: nat)

  function ChannelName(group: EventGroup): string {
    group.eventName + "-" + if group.direction == Inbound then "inbound" else "outbound"
  }

  function OperationName(group: EventGroup): string {
    (if group.direction == Inbound then "receive" else "send") + "-" + group.eventName
  }

  function MessageRef(key: string): string { "#/components/messages/" + key }

  function ChannelRef(key: string): string { "#/channels/" + key }

  function ChannelOf(group: EventGroup, messageKey: string): Channel {
    Channel(group.eventName, group.direction, map[messageKey := MessageRef(messageKey)], group.packetCount)
  }

  function OperationOf(group: EventGroup, channelKey: string): Operation {
    Operation(if group.direction == Inbound then Receive else Send, ChannelRef(channelKey), group.direction,
              group.packetCount)
  }

  function MessageOf(group: EventGroup): Message {
    Message(group.direction, if group.examples == [] then None else Some(group.examples[0]), group.eventName,
            group.packetCount, group.payloadKind)
  }

  /** The keys given to names in turn: each is new among those before it. */
  function KeysFor(names: seq<string>, inherited: set<string>): seq<string> {
    if names == [] then []
    else
      var before := KeysFor(names[..|names| - 1], inherited);
      before + [UniqueKey(ToSet(before) + inherited, SanitizeDocumentKey(names[|names| - 1]))]
  }

  function ToSet(xs: seq<string>): set<string> { set x | x in xs }

  lemma {:induction false} KeysForAreDistinct(names: seq<string>, inherited: set<string>)
    ensures |KeysFor(names, inherited)| == |names| && NoDuplicates(KeysFor(names, inherited))
    ensures forall key :: key in KeysFor(names, inherited) ==> key !in inherited
  {
    if names != [] {
      var before := KeysFor(names[..|names| - 1], inherited);
      KeysForAreDistinct(names[..|names| - 1], inherited);
      UniqueKeyIsFirstUnused(ToSet(before) + inherited, SanitizeDocumentKey(names[|names| - 1]), 1);
    }
  }

  function ChannelKeys(groups: seq<EventGroup>, inherited: set<string>): seq<string> {
    KeysFor(Map(groups, ChannelName), inherited)
  }

  function MessageName(group: EventGroup): string { group.eventName }

  function MessageKeys(groups: seq<EventGroup>, inherited: set<string>): seq<string> {
    KeysFor(Map(groups, MessageName), inherited)
  }

  function OperationKeys(groups: seq<EventGroup>, inherited: set<string>): seq<string> {
    KeysFor(Map(groups, OperationName), inherited)
  }

  function Exported(groups: seq<EventGroup>): seq<EventGroup> {
    if |groups| <= MAX_EVENT_GROUPS then groups else groups[..MAX_EVENT_GROUPS]
  }

  /** The record holds exactly the entries, each under its key. */
  ghost predicate Section<T(!new)>(record: map<string, T>, keys: seq<string>, entries: seq<T>) {
    && |keys| == |entries| && record.Keys == ToSet(keys)
    && forall i :: 0 <= i < |keys| ==> keys[i] in record && record[keys[i]] == entries[i]
  }

  function Zip<T(!new)>(groups: seq<EventGroup>, keys: seq<string>, f: (EventGroup, string) -> T): (entries: seq<T>)
    requires |groups| == |keys|
    ensures |entries| == |keys|
  {
    if groups == [] then []
    else Zip(groups[..|groups| - 1], keys[..|keys| - 1], f) + [f(groups[|groups| - 1], keys[|keys| - 1])]
  }

  /** One entry per group in each section, under the keys given in turn. */
  ghost predicate Documents(
    channels: map<string, Channel>, messages: map<string, Message>, operations: map<string, Operation>,
    groups: seq<EventGroup>, inherited: set<string>)
  {
    var c, m, o := ChannelKeys(groups, inherited), MessageKeys(groups, inherited), OperationKeys(groups, inherited);
    && |c| == |groups| && |m| == |groups|
    && Section(channels, c, Zip(groups, m, ChannelOf))
    && Section(messages, m, Map(groups, MessageOf))
    && Section(operations, o, Zip(groups, c, OperationOf))
  }

  lemma SectionOneMore<T(!new)>(record: map<string, T>, keys: seq<string>, entries: seq<T>, key: string, entry: T)
    requires Section(record, keys, entries) && key !in record
    ensures Section(record[key := entry], keys + [key], entries + [entry])
  {
    assert forall i :: 0 <= i < |keys| ==> keys[i] in ToSet(keys);
  }

  lemma ZipOneMore<T(!new)>(
    groups: seq<EventGroup>, keys: seq<string>, f: (EventGroup, string) -> T, group: EventGroup, key: string)
    requires |groups| == |keys|
    ensures Zip(groups + [group], keys + [key], f) == Zip(groups, keys, f) + [f(group, key)]
  {
    assert (groups + [group])[..|groups|] == groups && (keys + [key])[..|keys|] == keys;
  }

  lemma {:induction false} ZipAt<T(!new)>(
    groups: seq<EventGroup>, keys: seq<string>, f: (EventGroup, string) -> T, i: nat)
    requires |groups| == |keys| && i < |keys|
    ensures Zip(groups, keys, f)[i] == f(groups[i], keys[i])
  {
    if i < |keys| - 1 {
      ZipAt(groups[..|groups| - 1], keys[..|keys| - 1], f, i);
    }
  }

  lemma KeysForOneMore(names: seq<string>, name: string, inherited: set<string>)
    ensures KeysFor(names + [name], inherited)
            == KeysFor(names, inherited)
               + [UniqueKey(ToSet(KeysFor(names, inherited)) + inherited, SanitizeDocumentKey(name))]
  {
    assert (names + [name])[..|names|] == names;
  }

  lemma KeysGrow(groups: seq<EventGroup>, group: EventGroup, inherited: set<string>, naming: EventGroup -> string)
    ensures KeysFor(Map(groups + [group], naming), inherited)
            == KeysFor(Map(groups, naming), inherited)
               + [UniqueKey(ToSet(KeysFor(Map(groups, naming), inherited)) + inherited,
                            SanitizeDocumentKey(naming(group)))]
  {
    MapAppend(groups, [group], naming);
    assert Map([group], naming) == [naming(group)];
    KeysForOneMore(Map(groups, naming), naming(group), inherited);
  }

  lemma DocumentsOneMore(
    channels: map<string, Channel>, messages: map<string, Message>, operations: map<string, Operation>,
    groups: seq<EventGroup>, inherited: set<string>, group: EventGroup, c: string, m: string, o: string)
    requires Documents(channels, messages, operations, groups, inherited)
    requires c == UniqueKey(channels.Keys + inherited, SanitizeDocumentKey(ChannelName(group))) && c !in channels
    requires m == UniqueKey(messages.Keys + inherited, SanitizeDocumentKey(MessageName(group))) && m !in messages
    requires o == UniqueKey(operations.Keys + inherited, SanitizeDocumentKey(OperationName(group))) && o !in operations
    ensures Documents(channels[c := ChannelOf(group, m)], messages[m := MessageOf(group)],
                      operations[o := OperationOf(group, c)], groups + [group], inherited)
  {
    var cs, ms, os := ChannelKeys(groups, inherited), MessageKeys(groups, inherited), OperationKeys(groups, inherited);
    KeysGrow(groups, group, inherited, ChannelName);
    KeysGrow(groups, group, inherited, MessageName);
    KeysGrow(groups, group, inherited, OperationName);
    ZipOneMore(groups, ms, ChannelOf, group, m);
    ZipOneMore(groups, cs, OperationOf, group, c);
    MapAppend(groups, [group], MessageOf);
    assert Map([group], MessageOf) == [MessageOf(group)];
    SectionOneMore(channels, cs, Zip(groups, ms, ChannelOf), c, ChannelOf(group, m));
    SectionOneMore(messages, ms, Map(groups, MessageOf), m, MessageOf(group));
    SectionOneMore(operations, os, Zip(groups, cs, OperationOf), o, OperationOf(group, c));
  }

  /** The body of the key loop. */
  method AddGroup(
    channels: map<string, Channel>, messages: map<string, Message>, operations: map<string, Operation>,
    group: EventGroup, inherited: set<string>, ghost groups: seq<EventGroup>)
    returns (channels': map<string, Channel>, messages': map<string, Message>, operations': map<string, Operation>)
    requires Documents(channels, messages, operations, groups, inherited)
    ensures Documents(channels', messages', operations', groups + [group], inherited)
  {
    var channelKey := CreateUniqueKey(channels, inherited, ChannelName(group));
    var messageKey := CreateUniqueKey(messages, inherited, MessageName(group));
    var operationKey := CreateUniqueKey(operations, inherited, OperationName(group));
    DocumentsOneMore(channels, messages, operations, groups, inherited, group, channelKey, messageKey, operationKey);
    channels' := channels[channelKey := ChannelOf(group, messageKey)];
    operations' := operations[operationKey := OperationOf(group, channelKey)];
    messages' := messages[messageKey := MessageOf(group)];
  }

  lemma NothingDocumented(inherited: set<string>)
    ensures Documents(map[], map[], map[], [], inherited)
  {
    assert Map([], ChannelName) == [] && Map([], MessageName) == [] && Map([], OperationName) == [];
  }

  /** The key loop. */
  method DocumentGroups(groups: seq<EventGroup>, inherited: set<string>)
    returns (channels: map<string, Channel>, messages: map<string, Message>, operations: map<string, Operation>)
    ensures Documents(channels, messages, operations, groups, inherited)
  {
    channels, messages, operations := map[], map[], map[];
    NothingDocumented(inherited);
    for i := 0 to |groups|
      invariant Documents(channels, messages, operations, groups[..i], inherited)
    {
      TakeOneMore(groups, i);
      channels, messages, operations :=
        AddGroup(channels, messages, operations, groups[i], inherited, groups[..i]);
    }
    assert groups[..|groups|] == groups;
  }

  method CreateAsyncApiDocument(groups: seq<EventGroup>, inherited: set<string>) returns (document: Document)
    ensures Documents(document.channels, document.messages, document.operations, Exported(groups), inherited)
    ensures document.packetCount == CountOf(groups)
  {
    var channels, messages, operations := DocumentGroups(Exported(groups), inherited);
    var packetCount := TotalPacketCount(groups);
    document := Document(channels, messages, operations, packetCount);
  }

  method TotalPacketCount(groups: seq<EventGroup>) returns (packetCount: nat)
    ensures packetCount == CountOf(groups)
  {
    packetCount := 0;
    for i := 0 to |groups|
      invariant packetCount == CountOf(groups[..i])
    {
      assert groups[..i + 1][..i] == groups[..i];
      packetCount := packetCount + groups[i].packetCount;
    }
    assert groups[..|groups|] == groups;
  }

  lemma {:induction false} SizeOfDistinct(xs: seq<string>)
    requires NoDuplicates(xs)
    ensures |ToSet(xs)| == |xs|
  {
    if xs != [] {
      var init, last := xs[..|xs| - 1], xs[|xs| - 1];
      SizeOfDistinct(init);
      assert xs == init + [last];
      assert ToSet(xs) == ToSet(init) + {last};
    }
  }

  /** Every section of the document has one entry per exported group, and none of the
      keys is an inherited name. */
  lemma OneEntryPerGroup(
    channels: map<string, Channel>, messages: map<string, Message>, operations: map<string, Operation>,
    groups: seq<EventGroup>, inherited: set<string>)
    requires Documents(channels, messages, operations, groups, inherited)
    ensures |channels.Keys| == |messages.Keys| == |operations.Keys| == |groups|
    ensures channels.Keys !! inherited && messages.Keys !! inherited && operations.Keys !! inherited
  {
    KeysForAreDistinct(Map(groups, ChannelName), inherited);
    KeysForAreDistinct(Map(groups, MessageName), inherited);
    KeysForAreDistinct(Map(groups, OperationName), inherited);
    SizeOfDistinct(ChannelKeys(groups, inherited));
    SizeOfDistinct(MessageKeys(groups, inherited));
    SizeOfDistinct(OperationKeys(groups, inherited));
  }

  /** A channel's only message reference leads to the message of the same group. */
  ghost predicate MessageResolves(channel: Channel, messages: map<string, Message>) {
    exists key :: key in messages
                  && channel.messages == map[key := MessageRef(key)]
                  && messages[key].name == channel.address && messages[key].direction == channel.direction
                  && messages[key].packetCount == channel.packetCount
  }

  /** An operation's channel reference leads to the channel of the same group. */
  ghost predicate ChannelResolves(operation: Operation, channels: map<string, Channel>) {
    exists key :: key in channels
                  && operation.channelRef == ChannelRef(key)
                  && channels[key].direction == operation.direction
                  && channels[key].packetCount == operation.packetCount
  }

  lemma ReferencesResolveAt(
    channels: map<string, Channel>, messages: map<string, Message>, operations: map<string, Operation>,
    groups: seq<EventGroup>, inherited: set<string>, i: nat)
    requires Documents(channels, messages, operations, groups, inherited) && i < |groups|
    ensures var c, o := ChannelKeys(groups, inherited)[i], OperationKeys(groups, inherited)[i];
            && c in channels && MessageResolves(channels[c], messages)
            && o in operations && ChannelResolves(operations[o], channels)
  {
    var c, m, o := ChannelKeys(groups, inherited), MessageKeys(groups, inherited), OperationKeys(groups, inherited);
    ZipAt(groups, m, ChannelOf, i);
    ZipAt(groups, c, OperationOf, i);
    assert m[i] in messages && messages[m[i]] == MessageOf(groups[i]);
    assert c[i] in channels && channels[c[i]] == ChannelOf(groups[i], m[i]);
    assert o[i] in operations && operations[o[i]] == OperationOf(groups[i], c[i]);
  }

  lemma EveryReferenceResolves(
    channels: map<string, Channel>, messages: map<string, Message>, operations: map<string, Operation>,
    groups: seq<EventGroup>, inherited: set<string>)
    requires Documents(channels, messages, operations, groups, inherited)
    ensures forall key :: key in channels ==> MessageResolves(channels[key], messages)
    ensures forall key :: key in operations ==> ChannelResolves(operations[key], channels)
  {
    var c, o := ChannelKeys(groups, inherited), OperationKeys(groups, inherited);
    forall key | key in channels ensures MessageResolves(channels[key], messages) {
      var i := PlaceOf(c, key);
      ReferencesResolveAt(channels, messages, operations, groups, inherited, i);
    }
    forall key | key in operations ensures ChannelResolves(operations[key], channels) {
      var i := PlaceOf(o, key);
      ReferencesResolveAt(channels, messages, operations, groups, inherited, i);
    }
  }

  lemma PlaceOf(keys: seq<string>, key: string) returns (i: nat)
    requires key in ToSet(keys)
    ensures i < |keys| && keys[i] == key
  {
    i :| 0 <= i < |keys| && keys[i] == key;
  }

  /** The counts written at the exported groups add up to the document's packet count
      iff no group was cut off. */
  lemma DocumentedCountsAddUpIffNothingIsCut(groups: seq<EventGroup>)
    requires forall group :: group in groups ==> group.packetCount >= 1
    ensures CountOf(Exported(groups)) == CountOf(groups) <==> |groups| <= MAX_EVENT_GROUPS
  {
    if |groups| > MAX_EVENT_GROUPS {
      var cut := groups[MAX_EVENT_GROUPS..];
      assert groups == Exported(groups) + cut;
      CountAppend(Exported(groups), cut);
      assert cut[|cut| - 1] in groups;
    }
  }

  // -- The export -----------------------------------------------------------------------------------------

  function SessionPackets(packets: seq<Packet>, session: EntityId): seq<Packet> {
    SortOldestFirst(Filter(packets, InSession(session)))
  }

  datatype DraftExport = DraftExport(document: Document, eventCount: nat, packetCount: nat)

  method CreateAsyncApiDraftExport(
    packets: seq<Packet>, session: EntityId, read: EventReader, rank: Collation, inherited: set<string>)
    returns (draft: DraftExport)
    ensures var groups := SortGroups(EventGroups(SessionPackets(packets, session), read), rank);
            && Documents(draft.document.channels, draft.document.messages, draft.document.operations,
                         Exported(groups), inherited)
            && draft.eventCount == |groups|
    ensures draft.packetCount == draft.document.packetCount == |Filter(packets, InSession(session))|
  {
    var sortedPackets := SessionPackets(packets, session);
    var groups := CreateEventGroups(sortedPackets, read, rank);
    var document := CreateAsyncApiDocument(groups, inherited);
    CountsAddUp(sortedPackets, read, rank);
    draft := DraftExport(document, |groups|, |sortedPackets|);
  }
}
