/** The batched packet store: packets wait in a pending batch until a timer, a
    full batch or another operation merges them into the newest-first list,
    which is then cut to the retention limit. */
module PacketStore {
  import opened Sequences
  import opened Models

  const MAX_PACKET_BATCH_SIZE := 500

  // -- Merge and retention -------------------------------------------------------

  function Merge(left: seq<Packet>, right: seq<Packet>): seq<Packet>
    decreases |left| + |right|
  {
    if left == [] then right
    else if right == [] then left
    else if left[0].timestamp >= right[0].timestamp then [left[0]] + Merge(left[1..], right)
    else [right[0]] + Merge(left, right[1..])
  }

  method MergePacketsByTimestamp(left: seq<Packet>, right: seq<Packet>) returns (merged: seq<Packet>)
    ensures merged == Merge(left, right)
  {
    merged := [];
    var leftIndex, rightIndex := 0, 0;
    while leftIndex < |left| && rightIndex < |right|
      invariant 0 <= leftIndex <= |left| && 0 <= rightIndex <= |right|
      invariant merged + Merge(left[leftIndex..], right[rightIndex..]) == Merge(left, right)
      decreases |left| - leftIndex + |right| - rightIndex
    {
      var leftPacket, rightPacket := left[leftIndex], right[rightIndex];
      if leftPacket.timestamp >= rightPacket.timestamp {
        MergeLeftFirst(left[leftIndex..], right[rightIndex..]);
        assert left[leftIndex..][1..] == left[leftIndex + 1..];
        Associative(merged, [leftPacket], Merge(left[leftIndex + 1..], right[rightIndex..]));
        merged := merged + [leftPacket];
        leftIndex := leftIndex + 1;
      } else {
        MergeRightFirst(left[leftIndex..], right[rightIndex..]);
        assert right[rightIndex..][1..] == right[rightIndex + 1..];
        Associative(merged, [rightPacket], Merge(left[leftIndex..], right[rightIndex + 1..]));
        merged := merged + [rightPacket];
        rightIndex := rightIndex + 1;
      }
    }
    if leftIndex < |left| {
      merged := merged + left[leftIndex..];
    }
    if rightIndex < |right| {
      merged := merged + right[rightIndex..];
    }
  }

  function Take(packets: seq<Packet>, limit: nat): seq<Packet> {
    if |packets| <= limit then packets else packets[..limit]
  }

  lemma {:induction false} MergeMembers(left: seq<Packet>, right: seq<Packet>)
    ensures forall p :: p in Merge(left, right) ==> p in left || p in right
    decreases |left| + |right|
  {
    if left == [] || right == [] {
    } else if left[0].timestamp >= right[0].timestamp {
      MergeMembers(left[1..], right);
    } else {
      MergeMembers(left, right[1..]);
    }
  }

  lemma {:induction false} MergeSorted(left: seq<Packet>, right: seq<Packet>)
    requires SortedBy(left, Newest) && SortedBy(right, Newest)
    ensures SortedBy(Merge(left, right), Newest)
    decreases |left| + |right|
  {
    if left == [] || right == [] {
    } else if left[0].timestamp >= right[0].timestamp {
      SortedTail(left, Newest);
      MergeSorted(left[1..], right);
      MergeMembers(left[1..], right);
      SortedCons(left[0], Merge(left[1..], right), Newest);
    } else {
      SortedTail(right, Newest);
      MergeSorted(left, right[1..]);
      MergeMembers(left, right[1..]);
      SortedCons(right[0], Merge(left, right[1..]), Newest);
    }
  }

  lemma MergeLeftFirst(left: seq<Packet>, right: seq<Packet>)
    requires left != [] && right != [] && left[0].timestamp >= right[0].timestamp
    ensures Merge(left, right) == [left[0]] + Merge(left[1..], right)
  {
  }

  lemma MergeRightFirst(left: seq<Packet>, right: seq<Packet>)
    requires left != [] && right != [] && left[0].timestamp < right[0].timestamp
    ensures Merge(left, right) == [right[0]] + Merge(left, right[1..])
  {
  }

  lemma BucketCons(p: Packet, packets: seq<Packet>, k: real)
    ensures Bucket([p] + packets, Newest, k) == (if Newest(p) == k then [p] else []) + Bucket(packets, Newest, k)
  {
    assert ([p] + packets)[1..] == packets;
  }

  lemma {:induction false} MergeBucket(left: seq<Packet>, right: seq<Packet>, k: real)
    requires SortedBy(left, Newest) && SortedBy(right, Newest)
    ensures Bucket(Merge(left, right), Newest, k) == Bucket(left, Newest, k) + Bucket(right, Newest, k)
    decreases |left| + |right|
  {
    if left == [] || right == [] {
    } else if left[0].timestamp >= right[0].timestamp {
      MergeBucket(left[1..], right, k);
      MergeLeftFirst(left, right);
      BucketCons(left[0], Merge(left[1..], right), k);
      Associative(if Newest(left[0]) == k then [left[0]] else [], Bucket(left[1..], Newest, k),
                  Bucket(right, Newest, k));
    } else {
      MergeBucket(left, right[1..], k);
      MergeRightFirst(left, right);
      BucketCons(right[0], Merge(left, right[1..]), k);
      if Newest(right[0]) == k {
        NoSmallerKey(left, k);
      }
    }
  }

  lemma {:induction false} NoSmallerKey(packets: seq<Packet>, k: real)
    requires forall p :: p in packets ==> k < Newest(p)
    ensures Bucket(packets, Newest, k) == []
  {
    if packets != [] {
      assert packets[0] in packets;
      NoSmallerKey(packets[1..], k);
    }
  }

  /** Merging two sorted batches is sorting their concatenation, with the left
      batch winning ties. */
  lemma MergeOfSorts(left: seq<Packet>, right: seq<Packet>)
    ensures Merge(SortNewestFirst(left), SortNewestFirst(right)) == SortNewestFirst(left + right)
  {
    var x, y := SortNewestFirst(left), SortNewestFirst(right);
    SortSorts(left, Newest);
    SortSorts(right, Newest);
    MergeSorted(x, y);
    SortIsStable(left, Newest);
    SortIsStable(right, Newest);
    forall k ensures Bucket(Merge(x, y), Newest, k) == Bucket(left + right, Newest, k) {
      MergeBucket(x, y, k);
      BucketAppend(left, right, Newest, k);
      assert Bucket(x, Newest, k) == Bucket(left, Newest, k);
      assert Bucket(y, Newest, k) == Bucket(right, Newest, k);
    }
    SortSpec(left + right, Merge(x, y), Newest);
  }

  /** Cutting the right list early does not change what survives the cut. */
  lemma {:induction false} TakeOfMerge(left: seq<Packet>, right: seq<Packet>, n: nat, m: nat)
    requires n <= m
    ensures Take(Merge(left, Take(right, m)), n) == Take(Merge(left, right), n)
    decreases |left| + |right|
  {
    if n == 0 || left == [] || right == [] {
    } else if left[0].timestamp >= right[0].timestamp {
      TakeOfMerge(left[1..], right, n - 1, m);
      MergeLeftFirst(left, right);
      MergeLeftFirst(left, Take(right, m));
      TakeCons(left[0], Merge(left[1..], Take(right, m)), n);
      TakeCons(left[0], Merge(left[1..], right), n);
    } else {
      TakeOfMerge(left, right[1..], n - 1, m - 1);
      TakeTail(right, m);
      MergeRightFirst(left, right);
      MergeRightFirst(left, Take(right, m));
      TakeCons(right[0], Merge(left, Take(right[1..], m - 1)), n);
      TakeCons(right[0], Merge(left, right[1..]), n);
    }
  }

  lemma TakeCons(p: Packet, packets: seq<Packet>, n: nat)
    requires n > 0
    ensures Take([p] + packets, n) == [p] + Take(packets, n - 1)
  {
  }

  lemma TakeTail(packets: seq<Packet>, n: nat)
    requires n > 0 && packets != []
    ensures Take(packets, n) == [packets[0]] + Take(packets[1..], n - 1)
    ensures Take(packets, n)[1..] == Take(packets[1..], n - 1)
  {
    TakeCons(packets[0], packets[1..], n);
    assert packets == [packets[0]] + packets[1..];
  }

  // -- The store as a state machine ----------------------------------------------

  datatype Store = Store(packets: seq<Packet>, pending: seq<Packet>, timerArmed: bool)

  datatype Op =
    | AddPacket(packet: Packet)
    | AddPackets(added: seq<Packet>)
    | ClearPackets(sessionId: Option<EntityId>)
    | FlushPendingPackets
    | TimerFires
    | TrimToRetentionLimit

  function Absorb(s: Store, batch: seq<Packet>, limit: nat): Store {
    s.(packets := Take(Merge(SortNewestFirst(batch), s.packets), limit))
  }

  function Flush(s: Store, limit: nat): Store {
    var idle := s.(pending := [], timerArmed := false);
    if s.pending == [] then idle else Absorb(idle, s.pending, limit)
  }

  predicate OutsideSession(sessionId: EntityId, p: Packet) { p.sessionId != sessionId }

  function NotOf(sessionId: EntityId): Packet -> bool { p => OutsideSession(sessionId, p) }

  /** `clearPackets(null)` and `clearPackets("")` both empty the list. */
  function Clear(packets: seq<Packet>, sessionId: Option<EntityId>): seq<Packet> {
    if sessionId.Some? && sessionId.value != "" then Filter(packets, NotOf(sessionId.value)) else []
  }

  function Step(s: Store, op: Op, limit: nat): Store {
    match op
    case AddPacket(packet) =>
      var queued := s.(pending := s.pending + [packet]);
      if |queued.pending| >= MAX_PACKET_BATCH_SIZE then Flush(queued, limit) else queued.(timerArmed := true)
    case AddPackets(added) =>
      var flushed := Flush(s, limit);
      if added == [] then flushed else Absorb(flushed, added, limit)
    case ClearPackets(sessionId) =>
      var flushed := Flush(s, limit);
      flushed.(packets := Clear(flushed.packets, sessionId))
    case FlushPendingPackets => Flush(s, limit)
    case TimerFires => if s.timerArmed then Flush(s.(timerArmed := false), limit) else s
    case TrimToRetentionLimit =>
      var flushed := Flush(s, limit);
      flushed.(packets := Take(flushed.packets, limit))
  }

  function Run(s: Store, ops: seq<Op>, limit: nat): Store
    decreases |ops|
  {
    if ops == [] then s else Run(Step(s, ops[0], limit), ops[1..], limit)
  }

  /** The store object: the state actions of the Zustand store and the module
      variables they share. */
  class PacketStoreObject {
    var packets: seq<Packet>
    var pendingPacketBatch: seq<Packet>
    var packetBatchTimer: bool
    var packetRetentionLimit: nat

    function View(): Store
      reads this
    {
      Store(packets, pendingPacketBatch, packetBatchTimer)
    }

    constructor (limit: nat)
      ensures View() == Store([], [], false) && packetRetentionLimit == limit
    {
      packets, pendingPacketBatch, packetBatchTimer := [], [], false;
      packetRetentionLimit := limit;
    }

    method RetainNewestPackets(candidates: seq<Packet>) returns (retained: seq<Packet>)
      ensures retained == Take(candidates, packetRetentionLimit)
    {
      if |candidates| <= packetRetentionLimit {
        return candidates;
      }
      retained := candidates[..packetRetentionLimit];
    }

    method SchedulePacketFlush()
      modifies this`packetBatchTimer
      ensures packetBatchTimer
    {
      if packetBatchTimer {
        return;
      }
      packetBatchTimer := true;
    }

    method FlushPending()
      modifies this`packets, this`pendingPacketBatch, this`packetBatchTimer
      ensures View() == Step(old(View()), FlushPendingPackets, packetRetentionLimit)
    {
      packetBatchTimer := false;
      if |pendingPacketBatch| == 0 {
        pendingPacketBatch := [];
        return;
      }
      var nextBatch := SortNewestFirst(pendingPacketBatch);
      pendingPacketBatch := [];
      var merged := MergePacketsByTimestamp(nextBatch, packets);
      packets := RetainNewestPackets(merged);
    }

    method FireTimer()
      requires packetBatchTimer
      modifies this`packets, this`pendingPacketBatch, this`packetBatchTimer
      ensures View() == Step(old(View()), TimerFires, packetRetentionLimit)
    {
      packetBatchTimer := false;
      FlushPending();
    }

    method Add(packet: Packet)
      modifies this`packets, this`pendingPacketBatch, this`packetBatchTimer
      ensures View() == Step(old(View()), AddPacket(packet), packetRetentionLimit)
    {
      pendingPacketBatch := pendingPacketBatch + [packet];
      if |pendingPacketBatch| >= MAX_PACKET_BATCH_SIZE {
        FlushPending();
        return;
      }
      SchedulePacketFlush();
    }

    method AddMany(added: seq<Packet>)
      modifies this`packets, this`pendingPacketBatch, this`packetBatchTimer
      ensures View() == Step(old(View()), AddPackets(added), packetRetentionLimit)
    {
      FlushPending();
      if |added| == 0 {
        return;
      }
      var merged := MergePacketsByTimestamp(SortNewestFirst(added), packets);
      packets := RetainNewestPackets(merged);
    }

    method ClearSession(sessionId: Option<EntityId>)
      modifies this`packets, this`pendingPacketBatch, this`packetBatchTimer
      ensures View() == Step(old(View()), ClearPackets(sessionId), packetRetentionLimit)
    {
      FlushPending();
      packets := if sessionId.Some? && sessionId.value != "" then Filter(packets, NotOf(sessionId.value)) else [];
    }

    method Trim()
      modifies this`packets, this`pendingPacketBatch, this`packetBatchTimer
      ensures View() == Step(old(View()), Op.TrimToRetentionLimit, packetRetentionLimit)
    {
      FlushPending();
      packets := RetainNewestPackets(packets);
    }
  }

  // -- What every step keeps -----------------------------------------------------

  ghost predicate Good(s: Store, limit: nat) {
    && SortedBy(s.packets, Newest)
    && |s.packets| <= limit
    && (s.pending != [] <==> s.timerArmed)
    && |s.pending| < MAX_PACKET_BATCH_SIZE
  }

  lemma AbsorbSorted(s: Store, batch: seq<Packet>, limit: nat)
    requires SortedBy(s.packets, Newest)
    ensures SortedBy(Absorb(s, batch, limit).packets, Newest) && |Absorb(s, batch, limit).packets| <= limit
  {
    SortSorts(batch, Newest);
    MergeSorted(SortNewestFirst(batch), s.packets);
  }

  lemma {:induction false} FilterSorted(packets: seq<Packet>, keep: Packet -> bool)
    requires SortedBy(packets, Newest)
    ensures SortedBy(Filter(packets, keep), Newest)
  {
    if packets != [] {
      SortedTail(packets, Newest);
      FilterSorted(packets[1..], keep);
      FilterMembers(packets[1..], keep);
      SortedCons(packets[0], Filter(packets[1..], keep), Newest);
    }
  }

  lemma {:induction false} FilterShortens(packets: seq<Packet>, keep: Packet -> bool)
    ensures |Filter(packets, keep)| <= |packets|
  {
    if packets != [] {
      FilterShortens(packets[1..], keep);
    }
  }

  lemma StepKeepsGood(s: Store, op: Op, limit: nat)
    requires Good(s, limit)
    ensures Good(Step(s, op, limit), limit)
  {
    match op
    case AddPacket(packet) => AbsorbSorted(s, s.pending + [packet], limit);
    case AddPackets(added) =>
      AbsorbSorted(s, s.pending, limit);
      AbsorbSorted(Flush(s, limit), added, limit);
    case ClearPackets(sessionId) =>
      AbsorbSorted(s, s.pending, limit);
      if sessionId.Some? {
        FilterSorted(Flush(s, limit).packets, NotOf(sessionId.value));
        FilterShortens(Flush(s, limit).packets, NotOf(sessionId.value));
      }
    case FlushPendingPackets => AbsorbSorted(s, s.pending, limit);
    case TimerFires => AbsorbSorted(s, s.pending, limit);
    case TrimToRetentionLimit => AbsorbSorted(s, s.pending, limit);
  }

  /** In every reachable state the list is newest first and within the limit, the
      timer is armed exactly when packets wait, and fewer than 500 wait. */
  lemma {:induction false} RunKeepsGood(s: Store, ops: seq<Op>, limit: nat)
    requires Good(s, limit)
    ensures Good(Run(s, ops, limit), limit)
    decreases |ops|
  {
    if ops != [] {
      StepKeepsGood(s, ops[0], limit);
      RunKeepsGood(Step(s, ops[0], limit), ops[1..], limit);
    }
  }

  // -- Batching refines one sort ---------------------------------------------------

  /** Everything the operations add, in arrival order. */
  function Added(ops: seq<Op>): seq<Packet> {
    if ops == [] then [] else AddedBy(ops[0]) + Added(ops[1..])
  }

  function AddedBy(op: Op): seq<Packet> {
    match op
    case AddPacket(packet) => [packet]
    case AddPackets(added) => added
    case _ => []
  }

  predicate NoClear(ops: seq<Op>) { forall op :: op in ops ==> !op.ClearPackets? }

  /** What has been merged so far: newest batch first, arrival order within a batch. */
  function MergedLog(s: Store, log: seq<Packet>, op: Op): seq<Packet> {
    match op
    case AddPacket(packet) =>
      if |s.pending| + 1 >= MAX_PACKET_BATCH_SIZE then s.pending + [packet] + log else log
    case AddPackets(added) => added + (s.pending + log)
    case TimerFires => if s.timerArmed then s.pending + log else log
    case _ => s.pending + log
  }

  function BatchedLog(s: Store, log: seq<Packet>, ops: seq<Op>, limit: nat): seq<Packet>
    decreases |ops|
  {
    if ops == [] then s.pending + log
    else BatchedLog(Step(s, ops[0], limit), MergedLog(s, log, ops[0]), ops[1..], limit)
  }

  ghost predicate Summarises(s: Store, log: seq<Packet>, limit: nat) {
    s.packets == Take(SortNewestFirst(log), limit)
  }

  lemma AbsorbSummarises(s: Store, log: seq<Packet>, batch: seq<Packet>, limit: nat)
    requires Summarises(s, log, limit)
    ensures Summarises(Absorb(s, batch, limit), batch + log, limit)
  {
    TakeOfMerge(SortNewestFirst(batch), SortNewestFirst(log), limit, limit);
    MergeOfSorts(batch, log);
  }

  lemma FlushSummarises(s: Store, log: seq<Packet>, limit: nat)
    requires Summarises(s, log, limit)
    ensures Summarises(Flush(s, limit), s.pending + log, limit)
  {
    if s.pending == [] {
      assert s.pending + log == log;
    } else {
      AbsorbSummarises(s, log, s.pending, limit);
    }
  }

  lemma StepSummarises(s: Store, log: seq<Packet>, op: Op, limit: nat)
    requires Good(s, limit) && Summarises(s, log, limit) && !op.ClearPackets?
    ensures Summarises(Step(s, op, limit), MergedLog(s, log, op), limit)
  {
    match op
    case AddPacket(packet) => FlushSummarises(s.(pending := s.pending + [packet]), log, limit);
    case AddPackets(added) =>
      FlushSummarises(s, log, limit);
      AbsorbSummarises(Flush(s, limit), s.pending + log, added, limit);
      assert added + (s.pending + log) == [] + (s.pending + log) <== added == [];
    case FlushPendingPackets => FlushSummarises(s, log, limit);
    case TimerFires => FlushSummarises(s, log, limit);
    case TrimToRetentionLimit => FlushSummarises(s, log, limit);
  }

  /** The exact list, ties included: a flush after any operations leaves the first
      `limit` packets of one stable sort of all batches, newest batch first. */
  lemma {:induction false} FlushedListIsOneSort(s: Store, log: seq<Packet>, ops: seq<Op>, limit: nat)
    requires Good(s, limit) && Summarises(s, log, limit) && NoClear(ops)
    ensures Flush(Run(s, ops, limit), limit).packets == Take(SortNewestFirst(BatchedLog(s, log, ops, limit)), limit)
    decreases |ops|
  {
    if ops == [] {
      FlushSummarises(s, log, limit);
    } else {
      assert ops[0] in ops;
      StepKeepsGood(s, ops[0], limit);
      StepSummarises(s, log, ops[0], limit);
      FlushedListIsOneSort(Step(s, ops[0], limit), MergedLog(s, log, ops[0]), ops[1..], limit);
    }
  }

  lemma StepLogContents(s: Store, log: seq<Packet>, op: Op, limit: nat)
    requires Good(s, limit)
    ensures multiset(MergedLog(s, log, op)) + multiset(Step(s, op, limit).pending)
            == multiset(log) + multiset(s.pending) + multiset(AddedBy(op))
  {
  }

  /** Batching loses and invents nothing. */
  lemma {:induction false} BatchedLogContents(s: Store, log: seq<Packet>, ops: seq<Op>, limit: nat)
    requires Good(s, limit)
    ensures multiset(BatchedLog(s, log, ops, limit))
            == multiset(log) + multiset(s.pending) + multiset(Added(ops))
    decreases |ops|
  {
    if ops != [] {
      StepKeepsGood(s, ops[0], limit);
      StepLogContents(s, log, ops[0], limit);
      BatchedLogContents(Step(s, ops[0], limit), MergedLog(s, log, ops[0]), ops[1..], limit);
    }
  }

  function Negate(r: real): real { -r }

  lemma NegateIdentifies(rs: seq<real>)
    ensures KeyIdentifies(rs, Negate)
  {
  }

  function SortedTimestamps(packets: seq<Packet>): seq<real> { Sort(Map(packets, Timestamp), Negate) }

  lemma SortedTimestampsPermutation(xs: seq<Packet>, ys: seq<Packet>)
    requires multiset(xs) == multiset(ys)
    ensures SortedTimestamps(xs) == SortedTimestamps(ys)
  {
    MapPermutes(xs, ys, Timestamp);
    NegateIdentifies(Map(xs, Timestamp));
    SortOfPermutation(Map(xs, Timestamp), Map(ys, Timestamp), Negate);
  }

  /** However additions are split into batches, after a flush the stored
      timestamps are the first `limit` of all timestamps sorted descending. */
  lemma FlushedTimestamps(ops: seq<Op>, limit: nat, s: Store)
    requires Good(s, limit) && NoClear(ops)
    ensures var all := SortedTimestamps(s.packets + s.pending + Added(ops));
            Map(Flush(Run(s, ops, limit), limit).packets, Timestamp)
            == if |all| <= limit then all else all[..limit]
  {
    SortSorted(s.packets, Newest);
    var log := BatchedLog(s, s.packets, ops, limit);
    FlushedListIsOneSort(s, s.packets, ops, limit);
    BatchedLogContents(s, s.packets, ops, limit);
    SortedTimestampsPermutation(log, s.packets + s.pending + Added(ops));
    SortMap(log, Timestamp, Newest, Negate);
    MapTake(SortNewestFirst(log), limit);
  }

  lemma MapTake(packets: seq<Packet>, limit: nat)
    ensures var all := Map(packets, Timestamp);
            Map(Take(packets, limit), Timestamp) == if |all| <= limit then all else all[..limit]
  {
    if |packets| > limit {
      assert packets == packets[..limit] + packets[limit..];
      MapAppend(packets[..limit], packets[limit..], Timestamp);
    }
  }

  ghost predicate DistinctTimestamps(packets: seq<Packet>) {
    forall p, q :: p in packets && q in packets && p.timestamp == q.timestamp ==> p == q
  }

  /** With distinct timestamps the whole packet list is independent of batching. */
  lemma FlushedPacketsAreBatchIndependent(ops: seq<Op>, limit: nat, s: Store)
    requires Good(s, limit) && NoClear(ops)
    requires DistinctTimestamps(s.packets + s.pending + Added(ops))
    ensures Flush(Run(s, ops, limit), limit).packets
            == Take(SortNewestFirst(s.packets + s.pending + Added(ops)), limit)
  {
    SortSorted(s.packets, Newest);
    var log, all := BatchedLog(s, s.packets, ops, limit), s.packets + s.pending + Added(ops);
    FlushedListIsOneSort(s, s.packets, ops, limit);
    BatchedLogContents(s, s.packets, ops, limit);
    SameElements(log, all);
    SortOfPermutation(log, all, Newest);
  }

  // -- Exactly when batching does not matter ---------------------------------------------

  const EMPTY := Store([], [], false)

  /** The list stored after the operations and a flush, from an empty store. */
  function Stored(ops: seq<Op>, limit: nat): seq<Packet> { Flush(Run(EMPTY, ops, limit), limit).packets }

  /** Any two ways to add these packets in this order store the same list. */
  ghost predicate BatchIndependent(added: seq<Packet>, limit: nat) {
    forall ops, others :: NoClear(ops) && NoClear(others) && Added(ops) == added && Added(others) == added ==>
      Stored(ops, limit) == Stored(others, limit)
  }

  /** How many packets are newer than the timestamp. */
  function NewerThan(packets: seq<Packet>, timestamp: real): nat {
    if packets == [] then 0
    else (if packets[0].timestamp > timestamp then 1 else 0) + NewerThan(packets[1..], timestamp)
  }

  /** Two different packets share a timestamp, and fewer than `limit` packets are newer,
      so that at least one packet with that timestamp is kept. */
  ghost predicate KeepsATie(packets: seq<Packet>, limit: nat) {
    exists p, q :: p in packets && q in packets && p != q && p.timestamp == q.timestamp
                   && NewerThan(packets, p.timestamp) < limit
  }

  lemma {:induction false} NewerAppend(xs: seq<Packet>, ys: seq<Packet>, timestamp: real)
    ensures NewerThan(xs + ys, timestamp) == NewerThan(xs, timestamp) + NewerThan(ys, timestamp)
  {
    if xs == [] {
      assert xs + ys == ys;
    } else {
      assert (xs + ys)[1..] == xs[1..] + ys;
      NewerAppend(xs[1..], ys, timestamp);
    }
  }

  lemma {:induction false} NewerPermutation(xs: seq<Packet>, ys: seq<Packet>, timestamp: real)
    requires multiset(xs) == multiset(ys)
    ensures NewerThan(xs, timestamp) == NewerThan(ys, timestamp)
  {
    if xs == [] {
      SameElements(xs, ys);
    } else {
      var front, back := TakeOut(xs, ys);
      NewerPermutation(xs[1..], front + back, timestamp);
      NewerAppend(front, [xs[0]] + back, timestamp);
      NewerAppend([xs[0]], back, timestamp);
      NewerAppend(front, back, timestamp);
      assert [xs[0]][1..] == [];
    }
  }

  /** In a sorted list only the packets in front of a place can be newer. */
  lemma {:induction false} NewerAreInFront(packets: seq<Packet>, i: nat)
    requires SortedBy(packets, Newest) && i < |packets|
    ensures NewerThan(packets, packets[i].timestamp) <= i
  {
    if i == 0 {
      NoneNewerThanFirst(packets, packets[0].timestamp);
    } else {
      SortedTail(packets, Newest);
      NewerAreInFront(packets[1..], i - 1);
    }
  }

  lemma {:induction false} NoneNewer(packets: seq<Packet>, timestamp: real)
    requires forall p :: p in packets ==> p.timestamp <= timestamp
    ensures NewerThan(packets, timestamp) == 0
  {
    if packets != [] {
      NoneNewer(packets[1..], timestamp);
    }
  }

  /** The first packet with a timestamp stands right behind the newer ones. */
  lemma {:induction false} FirstOfTie(packets: seq<Packet>, timestamp: real)
    requires SortedBy(packets, Newest) && Bucket(packets, Newest, -timestamp) != []
    ensures var i := NewerThan(packets, timestamp);
            i < |packets| && packets[i] == Bucket(packets, Newest, -timestamp)[0]
  {
    SortedTail(packets, Newest);
    if packets[0].timestamp > timestamp {
      FirstOfTie(packets[1..], timestamp);
    } else {
      NoneNewerThanFirst(packets, timestamp);
      if packets[0].timestamp < timestamp {
        NoSmallerOrEqual(packets, timestamp);
      }
    }
  }

  lemma NoneNewerThanFirst(packets: seq<Packet>, timestamp: real)
    requires SortedBy(packets, Newest) && packets != [] && packets[0].timestamp <= timestamp
    ensures NewerThan(packets, timestamp) == 0
    ensures packets[0].timestamp < timestamp ==> forall p :: p in packets ==> p.timestamp < timestamp
  {
    SortedTail(packets, Newest);
    assert packets == [packets[0]] + packets[1..];
    NoneNewer(packets, timestamp);
  }

  lemma {:induction false} NoSmallerOrEqual(packets: seq<Packet>, timestamp: real)
    requires forall p :: p in packets ==> p.timestamp < timestamp
    ensures Bucket(packets, Newest, -timestamp) == []
  {
    if packets != [] {
      NoSmallerOrEqual(packets[1..], timestamp);
    }
  }

  /** What is stored is the start of one sort of a rearrangement of the packets added. */
  lemma StoredIsASort(ops: seq<Op>, limit: nat) returns (log: seq<Packet>)
    requires NoClear(ops)
    ensures multiset(log) == multiset(Added(ops)) && Stored(ops, limit) == Take(SortNewestFirst(log), limit)
  {
    log := BatchedLog(EMPTY, [], ops, limit);
    FlushedListIsOneSort(EMPTY, [], ops, limit);
    BatchedLogContents(EMPTY, [], ops, limit);
  }

  lemma SortedSameAt(xs: seq<Packet>, ys: seq<Packet>, limit: nat, i: nat)
    requires multiset(xs) == multiset(ys) && !KeepsATie(xs, limit)
    requires i < |xs| && i < limit
    ensures |ys| == |xs| && SortNewestFirst(xs)[i] == SortNewestFirst(ys)[i]
  {
    SameElements(xs, ys);
    var p, q := SortNewestFirst(xs)[i], SortNewestFirst(ys)[i];
    SortPermutes(xs, Newest);
    SortPermutes(ys, Newest);
    SortSorts(xs, Newest);
    assert p in SortNewestFirst(xs) && q in SortNewestFirst(ys);
    SameTimeAt(xs, ys, i);
    NewerAreInFront(SortNewestFirst(xs), i);
    NewerPermutation(SortNewestFirst(xs), xs, p.timestamp);
  }

  lemma SameTimeAt(xs: seq<Packet>, ys: seq<Packet>, i: nat)
    requires multiset(xs) == multiset(ys) && i < |xs| && i < |ys|
    ensures SortNewestFirst(xs)[i].timestamp == SortNewestFirst(ys)[i].timestamp
  {
    SortedTimestampsPermutation(xs, ys);
    SortMap(xs, Timestamp, Newest, Negate);
    SortMap(ys, Timestamp, Newest, Negate);
    assert Map(SortNewestFirst(xs), Timestamp)[i] == Map(SortNewestFirst(ys), Timestamp)[i];
  }

  lemma SortedSame(xs: seq<Packet>, ys: seq<Packet>, limit: nat)
    requires multiset(xs) == multiset(ys) && !KeepsATie(xs, limit)
    ensures Take(SortNewestFirst(xs), limit) == Take(SortNewestFirst(ys), limit)
  {
    SameElements(xs, ys);
    var first, second := Take(SortNewestFirst(xs), limit), Take(SortNewestFirst(ys), limit);
    forall i | 0 <= i < |first| ensures first[i] == second[i] {
      SortedSameAt(xs, ys, limit, i);
    }
  }

  lemma TieFreePermutation(xs: seq<Packet>, ys: seq<Packet>, limit: nat)
    requires multiset(xs) == multiset(ys) && !KeepsATie(xs, limit)
    ensures !KeepsATie(ys, limit)
  {
    SameElements(xs, ys);
    forall p | p in ys ensures NewerThan(xs, p.timestamp) == NewerThan(ys, p.timestamp) {
      NewerPermutation(xs, ys, p.timestamp);
    }
  }

  lemma NoTieNoDifference(added: seq<Packet>, limit: nat)
    requires !KeepsATie(added, limit)
    ensures BatchIndependent(added, limit)
  {
    forall ops, others | NoClear(ops) && NoClear(others) && Added(ops) == added && Added(others) == added
      ensures Stored(ops, limit) == Stored(others, limit)
    {
      var log := StoredIsASort(ops, limit);
      var other := StoredIsASort(others, limit);
      TieFreePermutation(added, log, limit);
      SortedSame(log, other, limit);
    }
  }

  /** One batch with everything, and two batches cut in front of the `m`-th packet. */
  function AllAtOnce(added: seq<Packet>): seq<Op> { [AddPackets(added)] }

  function CutAt(added: seq<Packet>, m: nat): seq<Op>
    requires m <= |added|
  {
    [AddPackets(added[..m]), AddPackets(added[m..])]
  }

  lemma LogAfterAdding(s: Store, log: seq<Packet>, added: seq<Packet>, rest: seq<Op>, limit: nat)
    requires s.pending == []
    ensures var t := Step(s, AddPackets(added), limit);
            t.pending == []
            && BatchedLog(s, log, [AddPackets(added)] + rest, limit) == BatchedLog(t, added + log, rest, limit)
  {
    assert ([AddPackets(added)] + rest)[1..] == rest;
    assert s.pending + log == log;
  }

  lemma StoredAtOnce(added: seq<Packet>, limit: nat)
    ensures NoClear(AllAtOnce(added)) && Added(AllAtOnce(added)) == added
    ensures Stored(AllAtOnce(added), limit) == Take(SortNewestFirst(added), limit)
  {
    var ops := AllAtOnce(added);
    assert ops[1..] == [] && ops == [AddPackets(added)] + [];
    FlushedListIsOneSort(EMPTY, [], ops, limit);
    LogAfterAdding(EMPTY, [], added, [], limit);
    assert [] + (added + []) == added;
  }

  lemma LogInTwo(a: seq<Packet>, b: seq<Packet>, limit: nat)
    ensures BatchedLog(EMPTY, [], [AddPackets(a), AddPackets(b)], limit) == b + a
  {
    assert [AddPackets(a), AddPackets(b)] == [AddPackets(a)] + [AddPackets(b)];
    assert [AddPackets(b)] == [AddPackets(b)] + [];
    LogAfterAdding(EMPTY, [], a, [AddPackets(b)], limit);
    assert a + [] == a;
    LogAfterAdding(Step(EMPTY, AddPackets(a), limit), a, b, [], limit);
    assert [] + (b + a) == b + a;
  }

  lemma StoredInTwo(added: seq<Packet>, m: nat, limit: nat)
    requires m <= |added|
    ensures NoClear(CutAt(added, m)) && Added(CutAt(added, m)) == added
    ensures Stored(CutAt(added, m), limit) == Take(SortNewestFirst(added[m..] + added[..m]), limit)
  {
    var ops := CutAt(added, m);
    assert ops[1..] == [AddPackets(added[m..])] && ops[1..][1..] == [];
    assert Added(ops[1..]) == added[m..] + [] && added[..m] + (added[m..] + []) == added;
    FlushedListIsOneSort(EMPTY, [], ops, limit);
    LogInTwo(added[..m], added[m..], limit);
  }

  lemma FirstStored(packets: seq<Packet>, timestamp: real, limit: nat)
    requires NewerThan(packets, timestamp) < limit && Bucket(packets, Newest, -timestamp) != []
    ensures var stored, i := Take(SortNewestFirst(packets), limit), NewerThan(packets, timestamp);
            i < |stored| && stored[i] == Bucket(packets, Newest, -timestamp)[0]
  {
    SortSorts(packets, Newest);
    SortIsStable(packets, Newest);
    SortPermutes(packets, Newest);
    NewerPermutation(SortNewestFirst(packets), packets, timestamp);
    assert Bucket(SortNewestFirst(packets), Newest, -timestamp) == Bucket(packets, Newest, -timestamp);
    FirstOfTie(SortNewestFirst(packets), timestamp);
  }

  /** The first of the packets with a timestamp. */
  function FirstAt(packets: seq<Packet>, timestamp: real): Option<Packet> {
    var tie := Bucket(packets, Newest, -timestamp);
    if tie == [] then None else Some(tie[0])
  }

  lemma FirstAtAppend(xs: seq<Packet>, ys: seq<Packet>)
    requires xs != []
    ensures FirstAt(xs + ys, xs[0].timestamp) == Some(xs[0])
  {
    assert (xs + ys)[0] == xs[0];
  }

  lemma FirstAtMember(packets: seq<Packet>, p: Packet)
    requires p in packets
    ensures FirstAt(packets, p.timestamp).Some?
  {
    BucketMember(packets, Newest, p);
  }

  lemma CutPutsFirst(added: seq<Packet>, m: nat)
    requires m < |added|
    ensures var time, turned := added[m].timestamp, added[m..] + added[..m];
            && FirstAt(turned, time) == Some(added[m]) && FirstAt(added, time).Some?
            && NewerThan(turned, time) == NewerThan(added, time)
  {
    var time, a, b := added[m].timestamp, added[..m], added[m..];
    FirstAtAppend(b, a);
    FirstAtMember(added, added[m]);
    assert added == a + b;
    NewerAppend(a, b, time);
    NewerAppend(b, a, time);
  }

  /** Cutting in front of a packet that ties with an earlier, different one puts it
      first among the packets of its time. */
  lemma CuttingATieShows(added: seq<Packet>, m: nat, limit: nat)
    requires m < |added| && NewerThan(added, added[m].timestamp) < limit
    requires FirstAt(added, added[m].timestamp) != Some(added[m])
    ensures !BatchIndependent(added, limit)
  {
    FirstAtMember(added, added[m]);
    AtOnceShows(added, added[m].timestamp, limit);
    CutShows(added, m, limit);
    StoredAtOnce(added, limit);
    StoredInTwo(added, m, limit);
  }

  lemma AtOnceShows(added: seq<Packet>, timestamp: real, limit: nat)
    requires NewerThan(added, timestamp) < limit && FirstAt(added, timestamp).Some?
    ensures var stored, i := Stored(AllAtOnce(added), limit), NewerThan(added, timestamp);
            i < |stored| && Some(stored[i]) == FirstAt(added, timestamp)
  {
    StoredAtOnce(added, limit);
    FirstStored(added, timestamp, limit);
  }

  lemma CutShows(added: seq<Packet>, m: nat, limit: nat)
    requires m < |added| && NewerThan(added, added[m].timestamp) < limit
    ensures var stored, i := Stored(CutAt(added, m), limit), NewerThan(added, added[m].timestamp);
            i < |stored| && stored[i] == added[m]
  {
    CutPutsFirst(added, m);
    StoredInTwo(added, m, limit);
    FirstStored(added[m..] + added[..m], added[m].timestamp, limit);
  }

  /** Exactly when the stored list does not depend on batching: when no two different
      packets tie at a timestamp of which the retention cut keeps any packet. */
  lemma BatchIndependentIffNoTieIsKept(added: seq<Packet>, limit: nat)
    ensures BatchIndependent(added, limit) <==> !KeepsATie(added, limit)
  {
    if p, q :| p in added && q in added && p != q && p.timestamp == q.timestamp
               && NewerThan(added, p.timestamp) < limit {
      var r := if FirstAt(added, p.timestamp) == Some(p) then q else p;
      var m :| 0 <= m < |added| && added[m] == r;
      CuttingATieShows(added, m, limit);
    } else {
      NoTieNoDifference(added, limit);
    }
  }

  function TwoAdds(p: Packet, q: Packet, between: seq<Op>): seq<Op> {
    [AddPacket(p)] + between + [AddPacket(q)]
  }

  /** With a tie the list does depend on batching: in one batch the earlier packet
      stays in front, across two batches the later one goes in front. */
  lemma TiesDependOnBatching(p: Packet, q: Packet, limit: nat)
    requires p != q && p.timestamp == q.timestamp && limit >= 2
    ensures Stored(TwoAdds(p, q, []), limit) == [p, q]
    ensures Stored(TwoAdds(p, q, [FlushPendingPackets]), limit) == [q, p]
  {
    OneBatch(p, q, limit);
    TwoBatches(p, q, limit);
  }

  lemma OneBatch(p: Packet, q: Packet, limit: nat)
    requires p.timestamp == q.timestamp && limit >= 2
    ensures Flush(Run(Store([], [], false), TwoAdds(p, q, []), limit), limit).packets == [p, q]
  {
    var ops := TwoAdds(p, q, []);
    var waiting := Store([], [p], true);
    assert ops[1..] == [AddPacket(q)] && ops[1..][1..] == [];
    assert [] + [p] == [p] && [p] + [q] == [p, q];
    assert Step(Store([], [], false), ops[0], limit) == waiting;
    assert Run(waiting, ops[1..], limit) == Store([], [p, q], true);
    SortSorted([p, q], Newest);
  }

  lemma TwoBatches(p: Packet, q: Packet, limit: nat)
    requires p.timestamp == q.timestamp && limit >= 2
    ensures Flush(Run(Store([], [], false), TwoAdds(p, q, [FlushPendingPackets]), limit), limit).packets == [q, p]
  {
    var ops := TwoAdds(p, q, [FlushPendingPackets]);
    assert ops[1..] == [FlushPendingPackets, AddPacket(q)];
    assert ops[1..][1..] == [AddPacket(q)] && ops[1..][1..][1..] == [];
    SortSorted([p], Newest);
    SortSorted([q], Newest);
    var waiting, merged := Store([], [p], true), Store([p], [], false);
    assert [] + [p] == [p] && [] + [q] == [q];
    assert Step(Store([], [], false), ops[0], limit) == waiting;
    assert Step(waiting, FlushPendingPackets, limit) == merged;
    assert Run(merged, ops[1..][1..], limit) == Store([p], [q], true);
    assert Run(waiting, ops[1..], limit) == Store([p], [q], true);
    assert [q][1..] == [] && Merge([q], [p]) == [q] + [p];
  }
}
