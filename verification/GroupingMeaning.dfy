/** What the timeline's groups are, said of the packets alone. */
module GroupingMeaning {
  import opened Sequences
  import opened Strings
  import opened Models
  import opened Runs
  import opened PacketGrouping

  // -- What a packet counts as ------------------------------------------------------------------

  function StatusOf(p: Packet, classify: Classifier): string { classify(p.payload, p.payloadKind).status }

  function EventOf(p: Packet, classify: Classifier): string { classify(p.payload, p.payloadKind).normalizedEvent }

  predicate CountsAsHeartbeat(p: Packet, classify: Classifier) {
    var event := EventOf(p, classify);
    || StatusOf(p, classify) == "heartbeat" || event in {"ping", "pong"}
    || EndsWith(event, ".ping") || EndsWith(event, ".pong") || Contains(event, "heartbeat")
  }

  predicate CountsAsReconnect(p: Packet, classify: Classifier) {
    StatusOf(p, classify) == "reconnect" || Contains(EventOf(p, classify), "reconnect")
  }

  predicate CountsAsAuth(p: Packet, classify: Classifier) {
    var event := EventOf(p, classify);
    || StatusOf(p, classify) == "auth" || "auth." <= event
    || Contains(event, ".auth.") || Contains(event, "token") || Contains(event, "session")
  }

  /** Heartbeats go before reconnects and those before auth; everything else repeats itself. */
  predicate IsOfKind(p: Packet, classify: Classifier, kind: Kind) {
    match kind
    case HeartbeatStorm => CountsAsHeartbeat(p, classify)
    case ReconnectFlow => CountsAsReconnect(p, classify) && !CountsAsHeartbeat(p, classify)
    case AuthFlow =>
      CountsAsAuth(p, classify) && !CountsAsReconnect(p, classify) && !CountsAsHeartbeat(p, classify)
    case RepeatedEvent =>
      !CountsAsAuth(p, classify) && !CountsAsReconnect(p, classify) && !CountsAsHeartbeat(p, classify)
  }

  /** Packets that belong in one group: of one kind, and if they only repeat themselves,
      of one direction, payload kind, status and event name. */
  ghost predicate Alike(p: Packet, q: Packet, classify: Classifier) {
    exists kind :: IsOfKind(p, classify, kind) && IsOfKind(q, classify, kind)
                   && (kind == RepeatedEvent ==>
                         && p.direction == q.direction && p.payloadKind == q.payloadKind
                         && StatusOf(p, classify) == StatusOf(q, classify)
                         && classify(p.payload, p.payloadKind).eventName
                            == classify(q.payload, q.payloadKind).eventName)
  }

  lemma KindAnswers(p: Packet, classify: Classifier)
    ensures var candidate := GetCandidate(p, classify);
            && IsOfKind(p, classify, candidate.kind)
            && candidate.eventName == classify(p.payload, p.payloadKind).eventName
            && candidate.status == match candidate.kind
                                   case HeartbeatStorm => "heartbeat"
                                   case ReconnectFlow => "reconnect"
                                   case AuthFlow => "auth"
                                   case RepeatedEvent => StatusOf(p, classify)
    ensures forall kind :: IsOfKind(p, classify, kind) ==> kind == GetCandidate(p, classify).kind
  {
  }

  lemma SameKeyIffAlike(p: Packet, q: Packet, classify: Classifier)
    ensures GetCandidate(p, classify).key == GetCandidate(q, classify).key <==> Alike(p, q, classify)
  {
    KindAnswers(p, classify);
    KindAnswers(q, classify);
    var kind := GetCandidate(p, classify).kind;
    if GetCandidate(p, classify).key == GetCandidate(q, classify).key {
      assert IsOfKind(p, classify, kind) && IsOfKind(q, classify, kind);
    }
  }

  // -- Maximal stretches ---------------------------------------------------------------------------

  /** A stretch of packets alike that cannot be made longer at either end. */
  ghost predicate IsStretch(packets: seq<Packet>, classify: Classifier, i: nat, j: nat) {
    && i < j <= |packets|
    && (forall k :: i <= k < j ==> Alike(packets[i], packets[k], classify))
    && (i > 0 ==> !Alike(packets[i - 1], packets[i], classify))
    && (j < |packets| ==> !Alike(packets[i], packets[j], classify))
  }

  ghost predicate IsInterval<T(!new), K(!new)>(xs: seq<T>, key: T -> K, i: nat, j: nat) {
    && i < j <= |xs|
    && (forall k :: i <= k < j ==> key(xs[k]) == key(xs[i]))
    && (i > 0 ==> key(xs[i - 1]) != key(xs[i]))
    && (j < |xs| ==> key(xs[j]) != key(xs[i]))
  }

  lemma StretchIsInterval(packets: seq<Packet>, classify: Classifier, i: nat, j: nat)
    ensures IsStretch(packets, classify, i, j) <==> IsInterval(packets, KeyBy(CandidateBy(classify)), i, j)
  {
    if i < j <= |packets| {
      forall k | 0 <= k < |packets|
        ensures Alike(packets[i], packets[k], classify) <==>
                KeyBy(CandidateBy(classify))(packets[i]) == KeyBy(CandidateBy(classify))(packets[k])
      {
        SameKeyIffAlike(packets[i], packets[k], classify);
      }
      if i > 0 {
        SameKeyIffAlike(packets[i - 1], packets[i], classify);
      }
    }
  }

  /** How far the first run goes. */
  lemma FirstInterval<T(!new), K(!new)>(xs: seq<T>, key: T -> K) returns (n: nat)
    requires xs != []
    ensures IsInterval(xs, key, 0, n)
    ensures Cut(xs, key) == [xs[..n]] + Cut(xs[n..], key)
  {
    n := 1;
    while n < |xs| && key(xs[n]) == key(xs[0])
      invariant 1 <= n <= |xs|
      invariant forall k :: 0 <= k < n ==> key(xs[k]) == key(xs[0])
    {
      n := n + 1;
    }
    FirstRun(xs, n, key);
  }

  lemma IntervalsShift<T(!new), K(!new)>(xs: seq<T>, key: T -> K, n: nat, i: nat, j: nat)
    requires IsInterval(xs, key, 0, n) && n <= i
    ensures IsInterval(xs, key, i, j) <==> j >= n && IsInterval(xs[n..], key, i - n, j - n)
  {
    var rest := xs[n..];
    if i < j <= |xs| {
      assert forall k :: n <= k < |xs| ==> rest[k - n] == xs[k];
      assert forall k :: 0 <= k < |rest| ==> rest[k] == xs[n + k];
    }
  }

  lemma {:induction false} IntervalIsRun<T(!new), K(!new)>(xs: seq<T>, key: T -> K, i: nat, j: nat)
    requires IsInterval(xs, key, i, j)
    ensures xs[i..j] in Cut(xs, key)
    decreases |xs|
  {
    var n := FirstInterval(xs, key);
    if i == 0 {
      assert key(xs[0]) == key(xs[i]);
      assert j == n;
    } else {
      assert i >= n;
      IntervalsShift(xs, key, n, i, j);
      IntervalIsRun(xs[n..], key, i - n, j - n);
      assert xs[n..][i - n..j - n] == xs[i..j];
    }
  }

  lemma InTheRest<T(!new)>(first: seq<T>, rest: seq<seq<T>>, run: seq<T>)
    requires run in [first] + rest && run != first
    ensures run in rest
  {
  }

  lemma {:induction false} RunIsInterval<T(!new), K(!new)>(xs: seq<T>, key: T -> K, run: seq<T>)
    returns (i: nat, j: nat)
    requires run in Cut(xs, key)
    ensures IsInterval(xs, key, i, j) && run == xs[i..j]
    decreases |xs|
  {
    var n := FirstInterval(xs, key);
    if run == xs[..n] {
      i, j := 0, n;
    } else {
      InTheRest(xs[..n], Cut(xs[n..], key), run);
      i, j := RunIsInterval(xs[n..], key, run);
      assert xs[n..][i..j] == xs[i + n..j + n];
      i, j := i + n, j + n;
      IntervalsShift(xs, key, n, i, j);
    }
  }

  // -- Groups ----------------------------------------------------------------------------------------

  function MinSize(kind: Kind, options: Options): int {
    match kind
    case HeartbeatStorm => options.minHeartbeatStormSize
    case ReconnectFlow => options.minReconnectFlowSize
    case AuthFlow => options.minAuthFlowSize
    case RepeatedEvent => options.minRepeatedEventSize
  }

  function Bytes(packets: seq<Packet>): real {
    if packets == [] then 0.0 else packets[0].sizeBytes + Bytes(packets[1..])
  }

  lemma {:induction false} BytesAppend(packets: seq<Packet>, last: Packet)
    ensures Bytes(packets + [last]) == Bytes(packets) + last.sizeBytes
  {
    if packets == [] {
      assert [] + [last] == [last] && Bytes([last][1..]) == 0.0;
    } else {
      assert (packets + [last])[1..] == packets[1..] + [last];
      BytesAppend(packets[1..], last);
    }
  }

  lemma {:induction false} TotalIsBytes(packets: seq<Packet>)
    ensures TotalBytes(packets) == Bytes(packets)
    decreases |packets|
  {
    if packets != [] {
      var init, last := packets[..|packets| - 1], packets[|packets| - 1];
      assert packets == init + [last];
      TotalIsBytes(init);
      BytesAppend(init, last);
    }
  }

  /** The group shows this stretch: its packets, how many, from when to when, which
      directions, how many bytes, named after its first packet and anchored at its last. */
  ghost predicate ShowsStretch(group: Group, run: seq<Packet>, classify: Classifier) {
    && run != [] && group.packets == run && group.packetCount == |run| && group.representativePacket == run[0]
    && group.totalBytes == Bytes(run)
    && IsOfKind(run[0], classify, group.kind) && group.id.kind == group.kind && group.id.anchor == run[|run| - 1].id
    && group.eventName == classify(run[0].payload, run[0].payloadKind).eventName
    && group.status == (match group.kind
                        case HeartbeatStorm => "heartbeat"
                        case ReconnectFlow => "reconnect"
                        case AuthFlow => "auth"
                        case RepeatedEvent => StatusOf(run[0], classify))
    && (forall p :: p in run ==> group.firstTimestamp <= p.timestamp <= group.lastTimestamp)
    && (exists p :: p in run && p.timestamp == group.firstTimestamp)
    && (exists p :: p in run && p.timestamp == group.lastTimestamp)
    && NoDuplicates(group.directions)
    && forall d :: d in group.directions <==> exists p :: p in run && p.direction == d
  }

  lemma HeaderShows(run: seq<Packet>, classify: Classifier)
    requires run != []
    ensures ShowsStretch(Header(run, CandidateBy(classify)).group, run, classify)
  {
    var candidate := GetCandidate(run[0], classify);
    KindAnswers(run[0], classify);
    CandidateKind(run[0], classify);
    GroupDescribes(run, candidate);
    TotalIsBytes(run);
  }

  lemma LongEnoughIff(run: seq<Packet>, classify: Classifier, options: Options, kind: Kind)
    requires run != [] && IsOfKind(run[0], classify, kind)
    ensures LongEnough(run, CandidateBy(classify), options) <==> |run| >= MinSize(kind, options)
  {
    KindAnswers(run[0], classify);
  }

  /** Every group shows a maximal stretch that is long enough for its kind. */
  lemma GroupsAreStretches(packets: seq<Packet>, classify: Classifier, options: Options, group: Group)
    returns (i: nat, j: nat)
    requires GroupItem(group) in Timeline(packets, classify, options)
    ensures IsStretch(packets, classify, i, j) && j - i >= MinSize(group.kind, options)
    ensures ShowsStretch(group, packets[i..j], classify)
  {
    var key := KeyBy(CandidateBy(classify));
    GroupsAreExactlyTheLongRuns(packets, classify, options, group);
    var run :| run in Cut(packets, key) && LongEnough(run, CandidateBy(classify), options)
               && GroupItem(group) == Header(run, CandidateBy(classify));
    i, j := RunIsInterval(packets, key, run);
    StretchIsInterval(packets, classify, i, j);
    HeaderShows(run, classify);
    LongEnoughIff(run, classify, options, group.kind);
  }

  /** And every such stretch is shown by a group. */
  lemma StretchesAreGroups(
    packets: seq<Packet>, classify: Classifier, options: Options, i: nat, j: nat, kind: Kind)
    returns (group: Group)
    requires IsStretch(packets, classify, i, j) && IsOfKind(packets[i], classify, kind)
    requires j - i >= MinSize(kind, options)
    ensures GroupItem(group) in Timeline(packets, classify, options)
    ensures ShowsStretch(group, packets[i..j], classify) && group.kind == kind
  {
    var run := packets[i..j];
    StretchIsInterval(packets, classify, i, j);
    IntervalIsRun(packets, KeyBy(CandidateBy(classify)), i, j);
    LongEnoughIff(run, classify, options, kind);
    group := Header(run, CandidateBy(classify)).group;
    GroupsAreExactlyTheLongRuns(packets, classify, options, group);
    HeaderShows(run, classify);
    KindAnswers(run[0], classify);
  }
}
