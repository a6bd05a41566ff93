/** The timeline cut into runs of packets of one kind, long runs folded into groups. */
module PacketGrouping {
  import opened Sequences
  import opened Strings
  import opened Models
  import opened Runs

  /** What the classifiers read off a payload: the event name as written and in lower
      case, and the status. */
  datatype Summary = Summary(eventName: string, normalizedEvent: string, status: string)

  type Classifier = (string, PayloadKind) -> Summary

  datatype Kind = HeartbeatStorm | ReconnectFlow | AuthFlow | RepeatedEvent

  datatype Key =
    | Heartbeat
    | Reconnect
    | Auth
    | Repeat(direction: Direction, payloadKind: PayloadKind, status: string, eventName: string)

  datatype Candidate = Candidate(eventName: string, key: Key, kind: Kind, status: string)

  datatype GroupId = GroupId(kind: Kind, key: Key, anchor: EntityId)

  datatype Group = Group(
    directions: seq<Direction>,
    eventName: string,
    firstTimestamp: real,
    id: GroupId,
    kind: Kind,
    lastTimestamp: real,
    packetCount: nat,
    packets: seq<Packet>,
    representativePacket: Packet,
    status: string,
    totalBytes: real)

  datatype TimelineItem = PacketItem(packet: Packet) | GroupItem(group: Group)

  datatype Options = Options(
    expandedGroupIds: set<GroupId>,
    minAuthFlowSize: int,
    minHeartbeatStormSize: int,
    minReconnectFlowSize: int,
    minRepeatedEventSize: int)

  // -- Candidates ------------------------------------------------------------------------

  predicate IsPingPong(event: string) {
    || event == "ping" || event == "pong"
    || EndsWith(event, ".ping") || EndsWith(event, ".pong") || Contains(event, "heartbeat")
  }

  function GetCandidate(p: Packet, classify: Classifier): Candidate {
    var summary := classify(p.payload, p.payloadKind);
    var event := summary.normalizedEvent;
    if summary.status == "heartbeat" || IsPingPong(event) then
      Candidate(summary.eventName, Heartbeat, HeartbeatStorm, "heartbeat")
    else if summary.status == "reconnect" || Contains(event, "reconnect") then
      Candidate(summary.eventName, Reconnect, ReconnectFlow, "reconnect")
    else if summary.status == "auth" || "auth." <= event || Contains(event, ".auth.")
            || Contains(event, "token") || Contains(event, "session") then
      Candidate(summary.eventName, Auth, AuthFlow, "auth")
    else
      Candidate(summary.eventName, Repeat(p.direction, p.payloadKind, summary.status, summary.eventName),
                RepeatedEvent, summary.status)
  }

  function CandidateBy(classify: Classifier): Packet -> Candidate { (p: Packet) => GetCandidate(p, classify) }

  function KeyBy(candidateOf: Packet -> Candidate): Packet -> Key { (p: Packet) => candidateOf(p).key }

  function KindOfKey(key: Key): Kind {
    match key
    case Heartbeat => HeartbeatStorm
    case Reconnect => ReconnectFlow
    case Auth => AuthFlow
    case Repeat(_, _, _, _) => RepeatedEvent
  }

  predicate ShouldCreateGroup(kind: Kind, packetCount: nat, options: Options) {
    packetCount >= match kind
                   case AuthFlow => options.minAuthFlowSize
                   case HeartbeatStorm => options.minHeartbeatStormSize
                   case ReconnectFlow => options.minReconnectFlowSize
                   case RepeatedEvent => options.minRepeatedEventSize
  }

  // -- Groups ------------------------------------------------------------------------------

  /** `reduce((sum, packet) => sum + packet.sizeBytes, 0)`. */
  function TotalBytes(packets: seq<Packet>): real {
    if packets == [] then 0.0 else TotalBytes(packets[..|packets| - 1]) + packets[|packets| - 1].sizeBytes
  }

  /** `[...new Set(packets.map(packet => packet.direction))]`. */
  function Directions(packets: seq<Packet>): seq<Direction> {
    if packets == [] then []
    else
      var before, last := Directions(packets[..|packets| - 1]), packets[|packets| - 1].direction;
      if last in before then before else before + [last]
  }

  function GroupIdOf(candidate: Candidate, packets: seq<Packet>): GroupId
    requires packets != []
  {
    GroupId(candidate.kind, candidate.key, packets[|packets| - 1].id)
  }

  function CreateGroup(candidate: Candidate, packets: seq<Packet>): Group
    requires packets != []
  {
    var timestamps := Map(packets, Timestamp);
    Group(Directions(packets), candidate.eventName, Min(timestamps), GroupIdOf(candidate, packets), candidate.kind,
          Max(timestamps), |packets|, packets, packets[0], candidate.status, TotalBytes(packets))
  }

  // -- The timeline ----------------------------------------------------------------------------

  function ToPacketItem(p: Packet): TimelineItem { PacketItem(p) }

  function RunItems(run: seq<Packet>, candidate: Candidate, options: Options): seq<TimelineItem>
    requires run != []
  {
    if ShouldCreateGroup(candidate.kind, |run|, options) then
      var group := CreateGroup(candidate, run);
      [GroupItem(group)] + if group.id in options.expandedGroupIds then Map(run, ToPacketItem) else []
    else
      Map(run, ToPacketItem)
  }

  function ItemsOf(runs: seq<seq<Packet>>, candidateOf: Packet -> Candidate, options: Options): seq<TimelineItem>
    requires NonEmpty(runs)
  {
    if runs == [] then []
    else RunItems(runs[0], candidateOf(runs[0][0]), options) + ItemsOf(runs[1..], candidateOf, options)
  }

  function TimelineBy(packets: seq<Packet>, candidateOf: Packet -> Candidate, options: Options): seq<TimelineItem> {
    ItemsOf(Cut(packets, KeyBy(candidateOf)), candidateOf, options)
  }

  function Timeline(packets: seq<Packet>, classify: Classifier, options: Options): seq<TimelineItem> {
    TimelineBy(packets, CandidateBy(classify), options)
  }

  lemma TimelineSplits(
    packets: seq<Packet>, index: nat, cursor: nat, candidateOf: Packet -> Candidate, options: Options)
    requires index < cursor <= |packets|
    requires OneKey(packets[index..cursor], KeyBy(candidateOf), candidateOf(packets[index]).key)
    requires cursor < |packets| ==> candidateOf(packets[cursor]).key != candidateOf(packets[index]).key
    ensures TimelineBy(packets[index..], candidateOf, options)
            == RunItems(packets[index..cursor], candidateOf(packets[index]), options)
               + TimelineBy(packets[cursor..], candidateOf, options)
  {
    var rest, n := packets[index..], cursor - index;
    assert rest[..n] == packets[index..cursor] && rest[n..] == packets[cursor..];
    assert n < |rest| ==> rest[n] == packets[cursor];
    FirstRun(rest, n, KeyBy(candidateOf));
  }

  method GroupTimelinePackets(packets: seq<Packet>, classify: Classifier, options: Options)
    returns (items: seq<TimelineItem>)
    ensures items == Timeline(packets, classify, options)
  {
    items := GroupBy(packets, CandidateBy(classify), options);
  }

  method GroupBy(packets: seq<Packet>, getPacketGroupCandidate: Packet -> Candidate, options: Options)
    returns (items: seq<TimelineItem>)
    ensures items == TimelineBy(packets, getPacketGroupCandidate, options)
  {
    items := [];
    var index := 0;
    while index < |packets|
      invariant 0 <= index <= |packets|
      invariant items + TimelineBy(packets[index..], getPacketGroupCandidate, options)
                == TimelineBy(packets, getPacketGroupCandidate, options)
    {
      var candidate := getPacketGroupCandidate(packets[index]);
      var run, cursor := CollectRun(packets, index, candidate.key, getPacketGroupCandidate);
      TimelineSplits(packets, index, cursor, getPacketGroupCandidate, options);
      Associative(items, RunItems(run, candidate, options),
                  TimelineBy(packets[cursor..], getPacketGroupCandidate, options));
      items := PushRun(items, candidate, run, options);
      index := cursor;
    }
  }

  /** The inner loop: everything from `index` on that has the key of its first packet. */
  method CollectRun(packets: seq<Packet>, index: nat, key: Key, getPacketGroupCandidate: Packet -> Candidate)
    returns (run: seq<Packet>, cursor: nat)
    requires index < |packets| && getPacketGroupCandidate(packets[index]).key == key
    ensures index < cursor <= |packets| && run == packets[index..cursor]
    ensures OneKey(run, KeyBy(getPacketGroupCandidate), key)
    ensures cursor < |packets| ==> getPacketGroupCandidate(packets[cursor]).key != key
  {
    run, cursor := [packets[index]], index + 1;
    while cursor < |packets|
      invariant index < cursor <= |packets|
      invariant run == packets[index..cursor] && OneKey(run, KeyBy(getPacketGroupCandidate), key)
    {
      var nextCandidate := getPacketGroupCandidate(packets[cursor]);
      if nextCandidate.key != key {
        break;
      }
      run := run + [packets[cursor]];
      cursor := cursor + 1;
    }
  }

  method PushRun(before: seq<TimelineItem>, candidate: Candidate, run: seq<Packet>, options: Options)
    returns (items: seq<TimelineItem>)
    requires run != []
    ensures items == before + RunItems(run, candidate, options)
  {
    items := before;
    if ShouldCreateGroup(candidate.kind, |run|, options) {
      var group := CreateGroup(candidate, run);
      items := items + [GroupItem(group)];
      if group.id in options.expandedGroupIds {
        items := PushPackets(items, run);
        Associative(before, [GroupItem(group)], Map(run, ToPacketItem));
      }
    } else {
      items := PushPackets(items, run);
    }
  }

  method PushPackets(before: seq<TimelineItem>, run: seq<Packet>) returns (items: seq<TimelineItem>)
    ensures items == before + Map(run, ToPacketItem)
  {
    items := before;
    for i := 0 to |run|
      invariant items == before + Map(run[..i], ToPacketItem)
    {
      assert run[..i + 1] == run[..i] + [run[i]];
      MapAppend(run[..i], [run[i]], ToPacketItem);
      items := items + [PacketItem(run[i])];
    }
    assert run[..|run|] == run;
  }

  // -- Nothing is lost -------------------------------------------------------------------------

  /** What an item stands for: a collapsed group for its packets; the header of an
      expanded one for nothing, its packets follow it. */
  function Expand(items: seq<TimelineItem>, expanded: set<GroupId>): seq<Packet> {
    if items == [] then []
    else
      (match items[0]
       case PacketItem(p) => [p]
       case GroupItem(group) => if group.id in expanded then [] else group.packets)
      + Expand(items[1..], expanded)
  }

  lemma {:induction false} ExpandAppend(first: seq<TimelineItem>, second: seq<TimelineItem>, expanded: set<GroupId>)
    ensures Expand(first + second, expanded) == Expand(first, expanded) + Expand(second, expanded)
  {
    if first == [] {
      assert first + second == second;
    } else {
      assert (first + second)[1..] == first[1..] + second;
      ExpandAppend(first[1..], second, expanded);
    }
  }

  lemma {:induction false} ExpandPackets(run: seq<Packet>, expanded: set<GroupId>)
    ensures Expand(Map(run, ToPacketItem), expanded) == run
  {
    if run != [] {
      ExpandPackets(run[1..], expanded);
      assert Map(run, ToPacketItem)[1..] == Map(run[1..], ToPacketItem);
    }
  }

  lemma ExpandRun(run: seq<Packet>, candidate: Candidate, options: Options)
    requires run != []
    ensures Expand(RunItems(run, candidate, options), options.expandedGroupIds) == run
  {
    var expanded := options.expandedGroupIds;
    ExpandPackets(run, expanded);
    if ShouldCreateGroup(candidate.kind, |run|, options) {
      var header := [GroupItem(CreateGroup(candidate, run))];
      ExpandAppend(header, if header[0].group.id in expanded then Map(run, ToPacketItem) else [], expanded);
      assert Expand(header, expanded) == if header[0].group.id in expanded then [] else run;
    }
  }

  lemma {:induction false} ExpandRuns(runs: seq<seq<Packet>>, candidateOf: Packet -> Candidate, options: Options)
    requires NonEmpty(runs)
    ensures Expand(ItemsOf(runs, candidateOf, options), options.expandedGroupIds) == Flatten(runs)
  {
    if runs != [] {
      var candidate := candidateOf(runs[0][0]);
      ExpandRun(runs[0], candidate, options);
      ExpandRuns(runs[1..], candidateOf, options);
      ExpandAppend(RunItems(runs[0], candidate, options), ItemsOf(runs[1..], candidateOf, options),
                   options.expandedGroupIds);
    }
  }

  /** Expanding every group gives back the packets, in order, whatever the thresholds
      and whichever groups are open. */
  lemma GroupingIsLossless(packets: seq<Packet>, classify: Classifier, options: Options)
    ensures Expand(Timeline(packets, classify, options), options.expandedGroupIds) == packets
  {
    var candidateOf := CandidateBy(classify);
    CutIsMaximal(packets, KeyBy(candidateOf));
    ExpandRuns(Cut(packets, KeyBy(candidateOf)), candidateOf, options);
  }

  // -- What groups say ----------------------------------------------------------------------------

  /** The figures of a group are folds over its run. */
  ghost predicate Describes(group: Group, run: seq<Packet>, candidate: Candidate)
    requires run != []
  {
    && group.packets == run && group.packetCount == |run| && group.representativePacket == run[0]
    && group.id == GroupId(KindOfKey(candidate.key), candidate.key, run[|run| - 1].id)
    && group.kind == group.id.kind && group.eventName == candidate.eventName && group.status == candidate.status
    && group.totalBytes == TotalBytes(run)
    && (forall p :: p in run ==> group.firstTimestamp <= p.timestamp <= group.lastTimestamp)
    && (exists p :: p in run && p.timestamp == group.firstTimestamp)
    && (exists p :: p in run && p.timestamp == group.lastTimestamp)
    && NoDuplicates(group.directions)
    && forall d :: d in group.directions <==> exists p :: p in run && p.direction == d
  }

  lemma {:induction false} DirectionsOf(run: seq<Packet>)
    ensures NoDuplicates(Directions(run))
    ensures forall d :: d in Directions(run) <==> exists p :: p in run && p.direction == d
  {
    if run != [] {
      var init, last := run[..|run| - 1], run[|run| - 1];
      assert run == init + [last];
      DirectionsOf(init);
      forall d ensures d in Directions(run) <==> exists p :: p in run && p.direction == d {
        if d in Directions(init) {
          var p :| p in init && p.direction == d;
          assert p in run;
        }
        assert last in run;
      }
    }
  }

  lemma CandidateKind(p: Packet, classify: Classifier)
    ensures var candidate := CandidateBy(classify)(p); candidate.kind == KindOfKey(candidate.key)
  {
  }

  lemma GroupDescribes(run: seq<Packet>, candidate: Candidate)
    requires run != [] && candidate.kind == KindOfKey(candidate.key)
    ensures Describes(CreateGroup(candidate, run), run, candidate)
  {
    var group, timestamps := CreateGroup(candidate, run), Map(run, Timestamp);
    DirectionsOf(run);
    forall p | p in run ensures group.firstTimestamp <= p.timestamp <= group.lastTimestamp {
      var i :| 0 <= i < |run| && run[i] == p;
      assert timestamps[i] == p.timestamp && timestamps[i] in timestamps;
    }
    var i :| 0 <= i < |run| && timestamps[i] == group.firstTimestamp;
    var j :| 0 <= j < |run| && timestamps[j] == group.lastTimestamp;
    assert run[i] in run && run[j] in run;
  }

  // -- Which groups there are -----------------------------------------------------------------------

  /** The item that heads `run`, when it is long enough for its kind. */
  function Header(run: seq<Packet>, candidateOf: Packet -> Candidate): TimelineItem
    requires run != []
  {
    GroupItem(CreateGroup(candidateOf(run[0]), run))
  }

  ghost predicate LongEnough(run: seq<Packet>, candidateOf: Packet -> Candidate, options: Options) {
    run != [] && ShouldCreateGroup(candidateOf(run[0]).kind, |run|, options)
  }

  lemma NoGroupAmongPackets(run: seq<Packet>, item: TimelineItem)
    requires item in Map(run, ToPacketItem)
    ensures item.PacketItem?
  {
    var i :| 0 <= i < |run| && Map(run, ToPacketItem)[i] == item;
  }

  lemma GroupsOfRun(run: seq<Packet>, candidateOf: Packet -> Candidate, options: Options, item: TimelineItem)
    requires run != [] && item.GroupItem?
    ensures item in RunItems(run, candidateOf(run[0]), options) <==>
            LongEnough(run, candidateOf, options) && item == Header(run, candidateOf)
  {
    if item in Map(run, ToPacketItem) {
      NoGroupAmongPackets(run, item);
    }
  }

  lemma {:induction false} GroupsAreLongRuns(
    runs: seq<seq<Packet>>, candidateOf: Packet -> Candidate, options: Options, item: TimelineItem)
    requires NonEmpty(runs) && item.GroupItem?
    ensures item in ItemsOf(runs, candidateOf, options) <==>
            exists run :: run in runs && LongEnough(run, candidateOf, options) && item == Header(run, candidateOf)
  {
    if runs != [] {
      GroupsAreLongRuns(runs[1..], candidateOf, options, item);
      GroupsOfRun(runs[0], candidateOf, options, item);
      assert forall run :: run in runs <==> run == runs[0] || run in runs[1..];
    }
  }

  /** The groups of a timeline are exactly the maximal runs of one key that are long
      enough for their kind, each with the figures of its run. */
  lemma GroupsAreExactlyTheLongRuns(packets: seq<Packet>, classify: Classifier, options: Options, group: Group)
    ensures GroupItem(group) in Timeline(packets, classify, options) <==>
            exists run :: run in Cut(packets, KeyBy(CandidateBy(classify)))
                          && LongEnough(run, CandidateBy(classify), options)
                          && GroupItem(group) == Header(run, CandidateBy(classify))
    ensures GroupItem(group) in Timeline(packets, classify, options) ==>
            group.packets != [] && Describes(group, group.packets, GetCandidate(group.packets[0], classify))
  {
    var candidateOf := CandidateBy(classify);
    var runs := Cut(packets, KeyBy(candidateOf));
    GroupsAreLongRuns(runs, candidateOf, options, GroupItem(group));
    if run :| run in runs && LongEnough(run, candidateOf, options) && GroupItem(group) == Header(run, candidateOf) {
      CandidateKind(run[0], classify);
      GroupDescribes(run, candidateOf(run[0]));
    }
  }

  // -- Newer packets ------------------------------------------------------------------------------------

  lemma SuffixKeepsId(run: seq<Packet>, grown: seq<Packet>, candidateOf: Packet -> Candidate, options: Options)
    requires run != [] && IsSuffix(run, grown) && LongEnough(run, candidateOf, options)
    requires candidateOf(run[0]).key == candidateOf(grown[0]).key
    requires candidateOf(run[0]).kind == candidateOf(grown[0]).kind
    ensures LongEnough(grown, candidateOf, options)
    ensures Header(grown, candidateOf).group.id == Header(run, candidateOf).group.id
  {
    assert grown[|grown| - 1] == run[|run| - 1];
  }

  lemma GrownRun(
    newer: seq<Packet>, packets: seq<Packet>, candidateOf: Packet -> Candidate, options: Options, run: seq<Packet>)
    returns (grown: seq<Packet>)
    requires forall p :: candidateOf(p).kind == KindOfKey(candidateOf(p).key)
    requires run in Cut(packets, KeyBy(candidateOf)) && LongEnough(run, candidateOf, options)
    ensures grown in Cut(newer + packets, KeyBy(candidateOf)) && LongEnough(grown, candidateOf, options)
    ensures IsSuffix(run, grown) && Header(grown, candidateOf).group.id == Header(run, candidateOf).group.id
  {
    var key := KeyBy(candidateOf);
    var runs, more := Cut(packets, key), Cut(newer + packets, key);
    var front, first := PrependKeepsRuns(newer, packets, key);
    if run == runs[0] {
      grown := first;
      assert more[|front|] == grown;
      CutIsMaximal(newer + packets, key);
      assert OneKey(grown, key, key(grown[0]));
      assert key(grown[|grown| - |run|]) == key(run[0]);
      SuffixKeepsId(run, grown, candidateOf, options);
    } else {
      grown := run;
      assert run in runs[1..];
    }
  }

  /** Putting newer packets in front keeps every group: its id stays, and its packets
      are the end of the new group's packets. */
  lemma NewerPacketsKeepGroupIds(
    newer: seq<Packet>, packets: seq<Packet>, classify: Classifier, options: Options, group: Group)
    returns (grown: Group)
    requires GroupItem(group) in Timeline(packets, classify, options)
    ensures GroupItem(grown) in Timeline(newer + packets, classify, options)
    ensures grown.id == group.id && IsSuffix(group.packets, grown.packets)
  {
    var candidateOf := CandidateBy(classify);
    GroupsAreLongRuns(Cut(packets, KeyBy(candidateOf)), candidateOf, options, GroupItem(group));
    var run :| run in Cut(packets, KeyBy(candidateOf)) && LongEnough(run, candidateOf, options)
               && GroupItem(group) == Header(run, candidateOf);
    forall p ensures candidateOf(p).kind == KindOfKey(candidateOf(p).key) {
      CandidateKind(p, classify);
    }
    var packets' := GrownRun(newer, packets, candidateOf, options, run);
    grown := Header(packets', candidateOf).group;
    GroupsAreLongRuns(Cut(newer + packets, KeyBy(candidateOf)), candidateOf, options, GroupItem(grown));
  }
}
