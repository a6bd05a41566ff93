/** Runs of the packet store with clears in them: what a clear takes away, what stays,
    and the unbatched store that every run refines. */
module PacketClearing {
  import opened Sequences
  import opened Models
  import opened PacketStore

  // -- One packet -----------------------------------------------------------------------------

  /** A packet waits, with the timer armed, until it is the 500th to wait; then all that
      waited is merged at once. */
  lemma AddAnswers(s: Store, packet: Packet, limit: nat)
    requires Good(s, limit)
    ensures var t := Step(s, AddPacket(packet), limit);
            && |s.pending| <= 499
            && (|s.pending| < 499 ==>
                  t.packets == s.packets && t.pending == s.pending + [packet] && t.timerArmed)
            && (|s.pending| == 499 ==>
                  && t.packets == Take(Merge(SortNewestFirst(s.pending + [packet]), s.packets), limit)
                  && t.pending == [] && !t.timerArmed)
  {
  }

  // -- One clear ---------------------------------------------------------------------------

  /** The packets that are not of the session, in their order. */
  function Without(packets: seq<Packet>, session: EntityId): seq<Packet> {
    if packets == [] then []
    else if packets[0].sessionId == session then Without(packets[1..], session)
    else [packets[0]] + Without(packets[1..], session)
  }

  lemma {:induction false} ClearIsWithout(packets: seq<Packet>, session: EntityId)
    requires session != ""
    ensures Clear(packets, Some(session)) == Without(packets, session)
  {
    if packets != [] {
      ClearIsWithout(packets[1..], session);
    }
  }

  lemma {:induction false} WithoutContents(packets: seq<Packet>, session: EntityId)
    ensures forall p :: multiset(Without(packets, session))[p] ==
                        if p.sessionId == session then 0 else multiset(packets)[p]
  {
    if packets != [] {
      WithoutContents(packets[1..], session);
      MultisetCons(packets);
    }
  }

  /** Clearing a session leaves exactly the flushed packets of the others, in order and
      as often as they were there; clearing without a session leaves nothing. */
  lemma ClearAnswers(s: Store, sessionId: Option<EntityId>, limit: nat)
    ensures var flushed, t := Step(s, FlushPendingPackets, limit), Step(s, ClearPackets(sessionId), limit);
            && t.pending == [] && !t.timerArmed
            && (sessionId == None || sessionId == Some("") ==> t.packets == [])
            && (sessionId.Some? && sessionId.value != "" ==>
                  && t.packets == Without(flushed.packets, sessionId.value)
                  && (forall p :: p in t.packets ==> p.sessionId != sessionId.value)
                  && forall p :: multiset(t.packets)[p] ==
                                 if p.sessionId == sessionId.value then 0 else multiset(flushed.packets)[p])
  {
    if sessionId.Some? && sessionId.value != "" {
      var flushed, t := Step(s, FlushPendingPackets, limit), Step(s, ClearPackets(sessionId), limit);
      ClearIsWithout(flushed.packets, sessionId.value);
      WithoutContents(flushed.packets, sessionId.value);
      forall p | p in t.packets ensures p.sessionId != sessionId.value {
        assert multiset(t.packets)[p] > 0;
      }
    }
  }

  // -- Contents over a run ---------------------------------------------------------------------

  /** What an operation makes of everything added so far, had nothing to be cut. */
  function After(log: seq<Packet>, op: Op): seq<Packet> {
    match op
    case AddPacket(packet) => log + [packet]
    case AddPackets(added) => log + added
    case ClearPackets(sessionId) =>
      if sessionId == None || sessionId == Some("") then [] else Without(log, sessionId.value)
    case _ => log
  }

  /** The packets added and not cleared since. */
  function Uncleared(log: seq<Packet>, ops: seq<Op>): seq<Packet>
    decreases |ops|
  {
    if ops == [] then log else Uncleared(After(log, ops[0]), ops[1..])
  }

  function Contents(s: Store): multiset<Packet> { multiset(s.packets) + multiset(s.pending) }

  lemma {:induction false} MergeContents(left: seq<Packet>, right: seq<Packet>)
    ensures multiset(Merge(left, right)) == multiset(left) + multiset(right)
    decreases |left| + |right|
  {
    if left == [] || right == [] {
    } else if left[0].timestamp >= right[0].timestamp {
      MergeContents(left[1..], right);
      MultisetCons(left);
    } else {
      MergeContents(left, right[1..]);
      MultisetCons(right);
    }
  }

  lemma TakeContents(packets: seq<Packet>, limit: nat)
    ensures multiset(Take(packets, limit)) <= multiset(packets)
    ensures |packets| <= limit ==> Take(packets, limit) == packets
  {
    if |packets| > limit {
      assert packets == packets[..limit] + packets[limit..];
    }
  }

  lemma AbsorbContents(s: Store, batch: seq<Packet>, limit: nat)
    ensures var t := Absorb(s, batch, limit);
            && t.pending == s.pending && multiset(t.packets) <= multiset(s.packets) + multiset(batch)
            && (|s.packets| + |batch| <= limit ==> multiset(t.packets) == multiset(s.packets) + multiset(batch))
  {
    SortPermutes(batch, Newest);
    MergeContents(SortNewestFirst(batch), s.packets);
    var merged := Merge(SortNewestFirst(batch), s.packets);
    TakeContents(merged, limit);
    assert |multiset(merged)| == |batch| + |s.packets|;
  }

  lemma FlushContents(s: Store, limit: nat)
    ensures var t := Flush(s, limit);
            && t.pending == [] && Contents(t) <= Contents(s)
            && (|s.packets| + |s.pending| <= limit ==> Contents(t) == Contents(s))
  {
    if s.pending != [] {
      AbsorbContents(s.(pending := [], timerArmed := false), s.pending, limit);
    }
  }

  lemma SizeOfContents(s: Store)
    ensures |Contents(s)| == |s.packets| + |s.pending|
  {
  }

  lemma QueuedContents(s: Store, packet: Packet, limit: nat)
    ensures var t := Step(s, AddPacket(packet), limit);
            && Contents(t) <= Contents(s) + multiset{packet}
            && (|s.packets| + |s.pending| + 1 <= limit ==> Contents(t) == Contents(s) + multiset{packet})
  {
    var queued := s.(pending := s.pending + [packet]);
    assert Contents(queued) == Contents(s) + multiset{packet};
    FlushContents(queued, limit);
  }

  lemma AddingContents(s: Store, op: Op, limit: nat)
    requires !op.ClearPackets?
    ensures var t := Step(s, op, limit);
            && Contents(t) <= Contents(s) + multiset(AddedBy(op))
            && (|s.packets| + |s.pending| + |AddedBy(op)| <= limit ==>
                  Contents(t) == Contents(s) + multiset(AddedBy(op)))
  {
    SizeOfContents(s);
    FlushContents(s, limit);
    SizeOfContents(Flush(s, limit));
    match op
    case AddPacket(packet) => QueuedContents(s, packet, limit);
    case AddPackets(added) => AbsorbContents(Flush(s, limit), added, limit);
    case TrimToRetentionLimit => TakeContents(Flush(s, limit).packets, limit);
    case TimerFires => FlushContents(s.(timerArmed := false), limit);
    case FlushPendingPackets =>
  }

  lemma WithoutIsMonotone(xs: seq<Packet>, ys: seq<Packet>, session: EntityId)
    requires multiset(xs) <= multiset(ys)
    ensures multiset(Without(xs, session)) <= multiset(Without(ys, session))
    ensures multiset(xs) == multiset(ys) ==> multiset(Without(xs, session)) == multiset(Without(ys, session))
  {
    WithoutContents(xs, session);
    WithoutContents(ys, session);
  }

  lemma ClearingContents(s: Store, log: seq<Packet>, op: Op, limit: nat)
    requires op.ClearPackets? && Contents(s) <= multiset(log)
    ensures Contents(Step(s, op, limit)) <= multiset(After(log, op))
    ensures Contents(s) == multiset(log) && |log| <= limit ==>
              Contents(Step(s, op, limit)) == multiset(After(log, op))
  {
    SizeOfContents(s);
    FlushContents(s, limit);
    var flushed, t := Flush(s, limit), Step(s, op, limit);
    assert flushed.pending == [] && t.pending == [];
    if op.sessionId.Some? && op.sessionId.value != "" {
      ClearIsWithout(flushed.packets, op.sessionId.value);
      WithoutIsMonotone(flushed.packets, log, op.sessionId.value);
    }
  }

  lemma StepContents(s: Store, log: seq<Packet>, op: Op, limit: nat)
    requires Contents(s) <= multiset(log)
    ensures Contents(Step(s, op, limit)) <= multiset(After(log, op))
    ensures Contents(s) == multiset(log) && |log| + |AddedBy(op)| <= limit ==>
              Contents(Step(s, op, limit)) == multiset(After(log, op))
  {
    if op.ClearPackets? {
      ClearingContents(s, log, op, limit);
    } else {
      AddingContents(s, op, limit);
      SizeOfContents(s);
    }
  }

  lemma {:induction false} WithoutShortens(packets: seq<Packet>, session: EntityId)
    ensures |Without(packets, session)| <= |packets|
  {
    if packets != [] {
      WithoutShortens(packets[1..], session);
    }
  }

  lemma AfterLength(log: seq<Packet>, op: Op)
    ensures |After(log, op)| <= |log| + |AddedBy(op)|
  {
    if op.ClearPackets? && op.sessionId.Some? {
      WithoutShortens(log, op.sessionId.value);
    }
  }

  /** Over any run, clears included: nothing is stored or pending that was not added and
      not cleared since, and while no more packets were added than the limit allows
      nothing else is missing. */
  lemma {:induction false} RunContents(s: Store, log: seq<Packet>, ops: seq<Op>, limit: nat)
    requires Contents(s) <= multiset(log)
    ensures Contents(Run(s, ops, limit)) <= multiset(Uncleared(log, ops))
    ensures Contents(s) == multiset(log) && |log| + |Added(ops)| <= limit ==>
              Contents(Run(s, ops, limit)) == multiset(Uncleared(log, ops))
    decreases |ops|
  {
    if ops != [] {
      StepContents(s, log, ops[0], limit);
      AfterLength(log, ops[0]);
      RunContents(Step(s, ops[0], limit), After(log, ops[0]), ops[1..], limit);
    }
  }

  // -- The unbatched store ------------------------------------------------------------------------

  /** The same operations on a store without batches: each packet is merged as it comes. */
  function Immediate(packets: seq<Packet>, op: Op, limit: nat): seq<Packet> {
    match op
    case AddPacket(packet) => Take(Merge([packet], packets), limit)
    case AddPackets(added) => Take(Merge(SortNewestFirst(added), packets), limit)
    case ClearPackets(sessionId) =>
      if sessionId == None || sessionId == Some("") then [] else Without(packets, sessionId.value)
    case TrimToRetentionLimit => Take(packets, limit)
    case _ => packets
  }

  function ImmediateRun(packets: seq<Packet>, ops: seq<Op>, limit: nat): seq<Packet>
    decreases |ops|
  {
    if ops == [] then packets else ImmediateRun(Immediate(packets, ops[0], limit), ops[1..], limit)
  }

  /** Everything that is or will be stored, is among packets with different timestamps. */
  ghost predicate Within(s: Store, ops: seq<Op>, all: seq<Packet>) {
    DistinctTimestamps(all) && Contents(s) + multiset(Added(ops)) <= multiset(all)
  }

  lemma SameTogether(pending: seq<Packet>, packet: Packet, packets: seq<Packet>)
    ensures multiset((pending + [packet]) + packets) == multiset(packets) + multiset(pending) + multiset{packet}
    ensures multiset([packet] + (pending + packets)) == multiset(packets) + multiset(pending) + multiset{packet}
  {
  }

  lemma QueuedIsMerged(s: Store, packet: Packet, all: seq<Packet>, limit: nat)
    requires Good(s, limit) && DistinctTimestamps(all) && Contents(s) + multiset{packet} <= multiset(all)
    ensures Flush(s.(pending := s.pending + [packet]), limit).packets
            == Take(Merge([packet], Flush(s, limit).packets), limit)
  {
    var queued, log := s.(pending := s.pending + [packet]), s.pending + s.packets;
    SortSorted(s.packets, Newest);
    FlushSummarises(queued, s.packets, limit);
    FlushSummarises(s, s.packets, limit);
    AbsorbSummarises(Flush(s, limit), log, [packet], limit);
    SortSorted([packet], Newest);
    var xs, ys := queued.pending + s.packets, [packet] + log;
    SameTogether(s.pending, packet, s.packets);
    SubsetIdentifies(xs, all);
    SortOfPermutation(xs, ys, Newest);
  }

  lemma SubsetIdentifies(xs: seq<Packet>, all: seq<Packet>)
    requires multiset(xs) <= multiset(all) && DistinctTimestamps(all)
    ensures KeyIdentifies(xs, Newest)
  {
    forall x, y | x in xs && y in xs && Newest(x) == Newest(y) ensures x == y {
      assert x in multiset(all) && y in multiset(all);
    }
  }

  lemma FlushAgain(s: Store, limit: nat)
    ensures Flush(Flush(s, limit), limit) == Flush(s, limit)
  {
  }

  lemma StepIsImmediate(s: Store, op: Op, all: seq<Packet>, limit: nat)
    requires Good(s, limit) && DistinctTimestamps(all) && Contents(s) + multiset(AddedBy(op)) <= multiset(all)
    ensures Flush(Step(s, op, limit), limit).packets == Immediate(Flush(s, limit).packets, op, limit)
  {
    StepKeepsGood(s, FlushPendingPackets, limit);
    FlushAgain(s, limit);
    match op
    case AddPacket(packet) =>
      QueuedIsMerged(s, packet, all, limit);
      FlushAgain(s.(pending := s.pending + [packet]), limit);
    case AddPackets(added) =>
    case ClearPackets(sessionId) =>
      if sessionId.Some? && sessionId.value != "" {
        ClearIsWithout(Flush(s, limit).packets, sessionId.value);
      }
    case TimerFires => FlushAgain(s.(timerArmed := false), limit);
    case FlushPendingPackets =>
    case TrimToRetentionLimit =>
  }

  lemma StepStaysWithin(s: Store, ops: seq<Op>, all: seq<Packet>, limit: nat)
    requires ops != [] && Within(s, ops, all)
    ensures Within(Step(s, ops[0], limit), ops[1..], all)
  {
    if ops[0].ClearPackets? {
      var held := s.packets + s.pending;
      ClearingContents(s, held, ops[0], limit);
      if ops[0].sessionId.Some? {
        WithoutContents(held, ops[0].sessionId.value);
      }
    } else {
      AddingContents(s, ops[0], limit);
    }
  }

  /** Over any run, clears and cuts included: with different timestamps the batched
      store, flushed, is the unbatched store. */
  lemma {:induction false} BatchedRefinesUnbatched(s: Store, ops: seq<Op>, all: seq<Packet>, limit: nat)
    requires Good(s, limit) && Within(s, ops, all)
    ensures Flush(Run(s, ops, limit), limit).packets == ImmediateRun(Flush(s, limit).packets, ops, limit)
    decreases |ops|
  {
    if ops != [] {
      StepIsImmediate(s, ops[0], all, limit);
      StepKeepsGood(s, ops[0], limit);
      StepStaysWithin(s, ops, all, limit);
      BatchedRefinesUnbatched(Step(s, ops[0], limit), ops[1..], all, limit);
    }
  }
}
