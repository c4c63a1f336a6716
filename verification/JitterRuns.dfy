/** Whole runs of the playout buffer. The 16-bit buffer is shown to answer exactly
    like an unbounded reorder queue whose slots are plain integers. */
module JitterRuns {
  import opened Seq16
  import opened Jitter
  import opened Collections

  datatype Op = Push(pkt: Packet, arrival: Time) | Pull(now: Time)
  datatype Reply = Pushed(status: PushStatus) | Pulled(result: PullResult)
  datatype Delivery = Delivery(slot: int, packet: Packet)

  /** The simple form: slots are unbounded, nothing wraps. `delivered`, `displaced`
      and `lost` record what became of every slot and packet. */
  datatype Queue = Queue(
    primed: bool, base: int, baseArrival: Time, next: int, slots: map<int, Packet>,
    delivered: seq<Delivery>, displaced: nat, lost: nat)
  {
    /** The slot a 16-bit number stands for: the one nearest to the playout point. */
    function SlotOf(k: Seq16): int {
      next + SeqDelta(k, Wrap(next))
    }

    function Primed(pkt: Packet, arrival: Time): Queue {
      if primed then this
      else this.(primed := true, base := pkt.seqNum, baseArrival := arrival, next := pkt.seqNum)
    }
  }

  const EMPTY_QUEUE := Queue(false, 0, 0, 0, map[], [], 0, 0)

  ghost predicate IsGreatest(i: int, keys: set<int>) {
    i in keys && forall j :: j in keys ==> j <= i
  }

  ghost function Greatest(keys: set<int>): (i: int)
    requires keys != {}
    ensures IsGreatest(i, keys)
  {
    GreatestExists(keys);
    var i :| IsGreatest(i, keys);
    i
  }

  lemma GreatestExists(keys: set<int>)
    requires keys != {}
    ensures exists i :: IsGreatest(i, keys)
  {
    var top := MostExists(keys, (i: int) => i);
    assert IsGreatest(top, keys);
  }

  /** Offer a packet for slot i to a queue of capacity cap: the latest slot goes
      when there is no room. */
  ghost function Offer(cap: int, q: Queue, i: int, pkt: Packet): (Queue, PushStatus) {
    if i < q.next then (q, Late)
    else if i in q.slots then (q, Duplicate)
    else if |q.slots| < cap then (q.(slots := q.slots[i := pkt]), Accepted)
    else
      var top := Greatest(q.slots.Keys + {i});
      if top == i then (q, EvictedCapacity)
      else (q.(slots := (q.slots - {top})[i := pkt], displaced := q.displaced + 1), Accepted)
  }

  /** How many intervals after the base slot base + k is due, as the buffer
      computes it from two 16-bit numbers. */
  function DueAfter(k: int): int {
    SeqDelta(Wrap(k), 0)
  }

  function Take(cfg: Config, q: Queue, now: Time): (Queue, PullResult) {
    if !q.primed then (q, Empty)
    else if q.next in q.slots then
      (q.(slots := q.slots - {q.next}, next := q.next + 1,
          delivered := q.delivered + [Delivery(q.next, q.slots[q.next])]), Got(q.slots[q.next]))
    else if now < q.baseArrival + cfg.targetDelay + DueAfter(q.next - q.base) * cfg.packetInterval then
      (q, Waiting)
    else
      (q.(next := q.next + 1, lost := q.lost + 1), Lost)
  }

  // ----- Runs of the two forms

  ghost function BufferStep(s: State, op: Op): (State, Reply) {
    match op
    case Push(pkt, arrival) => var (t, status) := PushStep(s, pkt, arrival); (t, Pushed(status))
    case Pull(now) => var (t, result) := PullStep(s, now); (t, Pulled(result))
  }

  ghost function QueueStep(cfg: Config, q: Queue, op: Op): (Queue, Reply) {
    match op
    case Push(pkt, arrival) =>
      var p := q.Primed(pkt, arrival);
      var (t, status) := Offer(cfg.maxPackets, p, p.SlotOf(pkt.seqNum), pkt);
      (t, Pushed(status))
    case Pull(now) => var (t, result) := Take(cfg, q, now); (t, Pulled(result))
  }

  ghost function BufferRun(cfg: Config, ops: seq<Op>): (State, seq<Reply>) {
    if ops == [] then (Fresh(cfg), [])
    else
      var (s, replies) := BufferRun(cfg, ops[..|ops| - 1]);
      var (t, reply) := BufferStep(s, ops[|ops| - 1]);
      (t, replies + [reply])
  }

  ghost function QueueRun(cfg: Config, ops: seq<Op>): (Queue, seq<Reply>) {
    if ops == [] then (EMPTY_QUEUE, [])
    else
      var (q, replies) := QueueRun(cfg, ops[..|ops| - 1]);
      var (t, reply) := QueueStep(cfg.WithDefaults(), q, ops[|ops| - 1]);
      (t, replies + [reply])
  }

  // ----- How the buffer represents the queue

  /** The half circle ahead of `next`, unrolled: slot i holds what is stored under
      i mod 65536, and nothing else is stored. */
  ghost predicate Window(buffered: map<Seq16, Packet>, slots: map<int, Packet>, next: int) {
    && (forall i {:trigger i in slots} :: i in slots <==> next <= i < next + HALF && Wrap(i) in buffered)
    && (forall i {:trigger slots[i]} :: i in slots ==> slots[i] == buffered[Wrap(i)])
  }

  ghost predicate Represents(s: State, q: Queue) {
    && s.Valid()
    && Aligned(s, q)
    && |s.buffered| == |q.slots|
    && Window(s.buffered, q.slots, q.next)
  }

  ghost predicate Aligned(s: State, q: Queue) {
    && s.initialized == q.primed
    && s.nextSeq == Wrap(q.next)
    && (if q.primed then s.baseSeq == Wrap(q.base) && s.baseArrival == q.baseArrival && q.base <= q.next
        else q.base == q.next)
  }

  /** Every packet accepted and every slot passed is in exactly one place, and
      packets leave at strictly increasing slots. */
  ghost predicate Accounted(s: State, q: Queue) {
    && s.stats.received == |q.delivered| + q.displaced + |q.slots|
    && q.displaced <= s.stats.evicted
    && s.stats.lost == q.lost
    && q.next - q.base == |q.delivered| + q.lost
    && (forall i :: 0 <= i < |q.delivered| ==>
          q.base <= q.delivered[i].slot < q.next && Wrap(q.delivered[i].slot) == q.delivered[i].packet.seqNum)
    && (forall i, j :: 0 <= i < j < |q.delivered| ==> q.delivered[i].slot < q.delivered[j].slot)
  }

  ghost predicate Inv(s: State, q: Queue) {
    Represents(s, q) && Accounted(s, q)
  }

  lemma PrimingRepresents(s: State, q: Queue, pkt: Packet, arrival: Time)
    requires Inv(s, q)
    ensures Inv(s.Primed(pkt, arrival), q.Primed(pkt, arrival))
  {
  }

  /** A slot of the window and its 16-bit number determine each other. */
  lemma SlotOfWrap(q: Queue, i: int, k: Seq16)
    ensures q.SlotOf(k) == i <==> -HALF <= i - q.next < HALF && Wrap(i) == k
  {
  }

  lemma InsertKeepsWindow(q: Queue, buffered: map<Seq16, Packet>, slots: map<int, Packet>, k0: Seq16, pkt: Packet)
    requires Window(buffered, slots, q.next) && q.SlotOf(k0) >= q.next && k0 !in buffered
    ensures q.SlotOf(k0) !in slots
    ensures Window(buffered[k0 := pkt], slots[q.SlotOf(k0) := pkt], q.next)
  {
    var i0 := q.SlotOf(k0);
    SlotOfWrap(q, i0, k0);
    assert i0 !in slots;
    forall i
      ensures q.next <= i < q.next + HALF && Wrap(i) == k0 <==> i == i0
    {
      SlotOfWrap(q, i, k0);
    }
  }

  lemma RemoveKeepsWindow(q: Queue, buffered: map<Seq16, Packet>, slots: map<int, Packet>, k0: Seq16)
    requires Window(buffered, slots, q.next) && q.SlotOf(k0) >= q.next && k0 in buffered
    ensures q.SlotOf(k0) in slots && slots[q.SlotOf(k0)] == buffered[k0]
    ensures Window(buffered - {k0}, slots - {q.SlotOf(k0)}, q.next)
  {
    var i0 := q.SlotOf(k0);
    SlotOfWrap(q, i0, k0);
    assert i0 in slots;
    forall i
      ensures q.next <= i < q.next + HALF && Wrap(i) == k0 <==> i == i0
    {
      SlotOfWrap(q, i, k0);
    }
  }

  lemma SlotOfInjective(q: Queue, j: Seq16, k: Seq16)
    ensures q.SlotOf(j) == q.SlotOf(k) <==> j == k
  {
  }

  /** Moving the playout point by one slot leaves every buffered slot in place. */
  lemma AdvanceKeepsWindow(buffered: map<Seq16, Packet>, slots: map<int, Packet>, next: int)
    requires Window(buffered, slots, next) && next !in slots
    requires forall k :: k in buffered ==> 0 <= SeqDelta(k, Wrap(next))
    ensures Window(buffered, slots, next + 1)
  {
  }

  /** The furthest 16-bit number is the greatest slot. */
  lemma FurthestIsGreatest(q: Queue, buffered: map<Seq16, Packet>, slots: map<int, Packet>, k0: Seq16)
    requires Window(buffered, slots, q.next)
    requires forall k :: k in buffered ==> 0 <= SeqDelta(k, Wrap(q.next))
    ensures q.SlotOf(Furthest(buffered.Keys + {k0}, Wrap(q.next))) == Greatest(slots.Keys + {q.SlotOf(k0)})
  {
    var far := Furthest(buffered.Keys + {k0}, Wrap(q.next));
    var top := Greatest(slots.Keys + {q.SlotOf(k0)});
    SlotOfWrap(q, q.SlotOf(far), far);
    assert far in buffered ==> q.SlotOf(far) in slots;
    assert q.SlotOf(far) in slots.Keys + {q.SlotOf(k0)};
    var k := if top in slots then Wrap(top) else k0;
    SlotOfWrap(q, top, k);
    assert k in buffered.Keys + {k0};
    assert SeqDelta(k, Wrap(q.next)) <= SeqDelta(far, Wrap(q.next));
  }

  lemma PushMatches(s: State, q: Queue, pkt: Packet, arrival: Time)
    requires Inv(s, q)
    ensures var (s', r) := BufferStep(s, Push(pkt, arrival));
            var (q', r') := QueueStep(s.cfg, q, Push(pkt, arrival));
            r == r' && Inv(s', q') && s'.cfg == s.cfg
  {
    PrimingRepresents(s, q, pkt, arrival);
    PrimedPushMatches(s.Primed(pkt, arrival), q.Primed(pkt, arrival), pkt, arrival);
  }

  lemma PrimedPushMatches(s: State, q: Queue, pkt: Packet, arrival: Time)
    requires Inv(s, q) && s.initialized
    ensures var (s', status) := PushStep(s, pkt, arrival);
            var (q', status') := Offer(s.cfg.maxPackets, q, q.SlotOf(pkt.seqNum), pkt);
            status == status' && Inv(s', q') && s'.cfg == s.cfg
  {
    var k0 := pkt.seqNum;
    PushKeepsValid(s, pkt, arrival);
    if s.Ahead(k0) >= 0 {
      if k0 in s.buffered {
        SlotOfWrap(q, q.SlotOf(k0), k0);
        assert q.SlotOf(k0) in q.slots;
      } else {
        InsertKeepsWindow(q, s.buffered, q.slots, k0, pkt);
        if |s.buffered| < s.cfg.maxPackets {
          GrowSize(s.buffered, k0, pkt);
          GrowSize(q.slots, q.SlotOf(k0), pkt);
        } else {
          FullPushMatches(s, q, pkt, arrival);
        }
      }
    }
  }

  lemma FullPushMatches(s: State, q: Queue, pkt: Packet, arrival: Time)
    requires Inv(s, q) && s.initialized && s.Ahead(pkt.seqNum) >= 0 && pkt.seqNum !in s.buffered
    requires |s.buffered| >= s.cfg.maxPackets && q.SlotOf(pkt.seqNum) !in q.slots
    ensures var (s', status) := PushStep(s, pkt, arrival);
            var (q', status') := Offer(s.cfg.maxPackets, q, q.SlotOf(pkt.seqNum), pkt);
            status == status' && Inv(s', q') && s'.cfg == s.cfg
  {
    var k0 := pkt.seqNum;
    var far := Furthest(s.buffered.Keys + {k0}, s.nextSeq);
    PushKeepsValid(s, pkt, arrival);
    FurthestIsGreatest(q, s.buffered, q.slots, k0);
    SlotOfInjective(q, far, k0);
    if far != k0 {
      RemoveKeepsWindow(q, s.buffered, q.slots, far);
      InsertKeepsWindow(q, s.buffered - {far}, q.slots - {q.SlotOf(far)}, k0, pkt);
      ShrinkSize(q.slots, q.SlotOf(far));
      GrowSize(q.slots - {q.SlotOf(far)}, q.SlotOf(k0), pkt);
      EvictionKeepsSize(s.buffered, far, pkt);
    }
  }

  lemma DueAgrees(s: State, q: Queue)
    requires s.nextSeq == Wrap(q.next) && s.baseSeq == Wrap(q.base)
    ensures SeqDelta(s.nextSeq, s.baseSeq) == DueAfter(q.next - q.base)
  {
  }

  lemma DeliveryMatches(s: State, q: Queue, now: Time)
    requires Inv(s, q) && s.initialized && s.nextSeq in s.buffered && q.next in q.slots
    ensures var (s', r) := PullStep(s, now);
            var (q', r') := Take(s.cfg, q, now);
            r == r' && Inv(s', q') && s'.cfg == s.cfg
  {
    PullKeepsValid(s, now);
    SuccOfWrap(q.next);
    RemoveKeepsWindow(q, s.buffered, q.slots, s.nextSeq);
    AdvanceKeepsWindow(s.buffered - {s.nextSeq}, q.slots - {q.next}, q.next);
    ShrinkSize(s.buffered, s.nextSeq);
    ShrinkSize(q.slots, q.next);
  }

  lemma SkipMatches(s: State, q: Queue)
    requires Inv(s, q) && s.initialized && s.nextSeq !in s.buffered && q.next !in q.slots
    ensures Inv(Skipped(s), q.(next := q.next + 1, lost := q.lost + 1))
  {
    SkipRepresents(s, q);
    SkipAccounted(s, q);
  }

  lemma SkipRepresents(s: State, q: Queue)
    requires Represents(s, q) && s.initialized && s.nextSeq !in s.buffered && q.next !in q.slots
    ensures Represents(Skipped(s), q.(next := q.next + 1, lost := q.lost + 1))
  {
    var s' := Skipped(s);
    var q' := q.(next := q.next + 1, lost := q.lost + 1);
    assert s'.Valid() by { SkipKeepsValid(s, s'.stats); }
    assert Aligned(s', q') by { SuccOfWrap(q.next); }
    assert Window(s'.buffered, q'.slots, q'.next) by { SkipKeepsWindow(s, q); }
  }

  lemma SkipKeepsWindow(s: State, q: Queue)
    requires Represents(s, q) && q.next !in q.slots
    ensures Window(s.buffered, q.slots, q.next + 1)
  {
    forall k | k in s.buffered
      ensures SeqDelta(k, Wrap(q.next)) >= 0
    {
      assert s.Ahead(k) >= 0;
    }
    AdvanceKeepsWindow(s.buffered, q.slots, q.next);
  }

  lemma SkipAccounted(s: State, q: Queue)
    requires Accounted(s, q)
    ensures Accounted(Skipped(s), q.(next := q.next + 1, lost := q.lost + 1))
  {
  }

  function Skipped(s: State): State {
    s.(nextSeq := Succ(s.nextSeq), stats := s.stats.(lost := s.stats.lost + 1))
  }

  /** With nothing stored both forms wait or skip together. */
  lemma SameVerdict(s: State, q: Queue, now: Time)
    requires s.initialized && q.primed && s.nextSeq !in s.buffered && q.next !in q.slots
    requires s.nextSeq == Wrap(q.next) && s.baseSeq == Wrap(q.base) && s.baseArrival == q.baseArrival
    ensures || (PullStep(s, now) == (s, Waiting) && Take(s.cfg, q, now) == (q, Waiting))
            || (PullStep(s, now) == (Skipped(s), Lost)
                && Take(s.cfg, q, now) == (q.(next := q.next + 1, lost := q.lost + 1), Lost))
  {
    DueAgrees(s, q);
  }

  lemma NothingThereMatches(s: State, q: Queue, now: Time)
    requires Inv(s, q) && s.initialized && s.nextSeq !in s.buffered && q.next !in q.slots
    ensures var (s', r) := PullStep(s, now);
            var (q', r') := Take(s.cfg, q, now);
            r == r' && Inv(s', q') && s'.cfg == s.cfg
  {
    SameVerdict(s, q, now);
    SkipMatches(s, q);
  }

  lemma PullMatches(s: State, q: Queue, now: Time)
    requires Inv(s, q)
    ensures var (s', r) := PullStep(s, now);
            var (q', r') := Take(s.cfg, q, now);
            r == r' && Inv(s', q') && s'.cfg == s.cfg
  {
    if s.initialized {
      assert q.next in q.slots <==> s.nextSeq in s.buffered;
      if s.nextSeq in s.buffered {
        DeliveryMatches(s, q, now);
      } else {
        NothingThereMatches(s, q, now);
      }
    }
  }

  /** Over any sequence of Push and Pull with arbitrary sequence numbers and times
      the buffer gives the same replies as the unbounded queue and represents it. */
  lemma {:induction false} BufferRefinesQueue(cfg: Config, ops: seq<Op>)
    ensures BufferRun(cfg, ops).1 == QueueRun(cfg, ops).1
    ensures Inv(BufferRun(cfg, ops).0, QueueRun(cfg, ops).0)
    ensures BufferRun(cfg, ops).0.cfg == cfg.WithDefaults()
  {
    if ops == [] {
      assert Inv(Fresh(cfg), EMPTY_QUEUE);
    } else {
      BufferRefinesQueue(cfg, ops[..|ops| - 1]);
      var s, q := BufferRun(cfg, ops[..|ops| - 1]).0, QueueRun(cfg, ops[..|ops| - 1]).0;
      match ops[|ops| - 1]
      case Push(pkt, arrival) => PushMatches(s, q, pkt, arrival);
      case Pull(now) => PullMatches(s, q, now);
    }
  }

  // ----- Deadlines

  /** The playout deadline of the next slot, counted in unbounded slots from the base. */
  function Nominal(cfg: Config, q: Queue): Time {
    q.baseArrival + cfg.targetDelay + (q.next - q.base) * cfg.packetInterval
  }

  /** The computed deadline is the nominal one for the first 32768 slots and for no
      later slot; at slot 32768 it falls before the deadline of the base packet. */
  lemma HorizonIsExact(k: nat)
    ensures DueAfter(k) == k <==> k < HALF
    ensures k >= HALF ==> DueAfter(k) < k
    ensures DueAfter(HALF) == -HALF
  {
  }

  lemma LossAt(s: State, q: Queue, now: Time)
    requires Inv(s, q) && q.primed && q.next - q.base < HALF
    ensures var reply := PullStep(s, now).1;
            && (reply == Lost <==> q.next !in q.slots && now >= Nominal(s.cfg, q))
            && (reply == Waiting <==> q.next !in q.slots && now < Nominal(s.cfg, q))
  {
    PullMatches(s, q, now);
    QueueLossAt(s.cfg, q, now);
  }

  lemma QueueLossAt(cfg: Config, q: Queue, now: Time)
    requires q.primed && 0 <= q.next - q.base < HALF
    ensures var reply := Take(cfg, q, now).1;
            && (reply == Lost <==> q.next !in q.slots && now >= Nominal(cfg, q))
            && (reply == Waiting <==> q.next !in q.slots && now < Nominal(cfg, q))
  {
    HorizonIsExact(q.next - q.base);
  }

  /** Within the horizon Pull calls a slot lost only when nothing is stored for it
      and its nominal deadline has come, and says waiting before that. */
  lemma LossWithinHorizon(cfg: Config, ops: seq<Op>, s: State, q: Queue, now: Time)
    requires s == BufferRun(cfg, ops).0 && q == QueueRun(cfg, ops).0
    requires q.primed && q.next - q.base < HALF
    ensures var reply := PullStep(s, now).1;
            && (reply == Lost <==> q.next !in q.slots && now >= Nominal(s.cfg, q))
            && (reply == Waiting <==> q.next !in q.slots && now < Nominal(s.cfg, q))
  {
    BufferRefinesQueue(cfg, ops);
    LossAt(s, q, now);
  }

  lemma FewerIntervals(j: int, k: int, interval: int)
    requires j < k && interval > 0
    ensures j * interval < k * interval
  {
  }

  /** Past the horizon, for every slot, a missing packet is called lost before its
      nominal deadline: the bound in LossWithinHorizon cannot be relaxed. */
  lemma EarlyLossPastHorizon(s: State, q: Queue)
    requires Inv(s, q) && q.primed && q.next - q.base >= HALF && q.next !in q.slots
    ensures PullStep(s, Nominal(s.cfg, q) - 1).1 == Lost
  {
    PullMatches(s, q, Nominal(s.cfg, q) - 1);
    QueueEarlyLoss(s.cfg, q);
  }

  lemma QueueEarlyLoss(cfg: Config, q: Queue)
    requires cfg.Ready() && q.primed && q.next - q.base >= HALF && q.next !in q.slots
    ensures Take(cfg, q, Nominal(cfg, q) - 1).1 == Lost
  {
    var k := q.next - q.base;
    HorizonIsExact(k);
    FewerIntervals(DueAfter(k), k, cfg.packetInterval);
  }

  /** One push and then k pulls at the same late time. */
  function LateOps(pkt: Packet, now: Time, k: nat): seq<Op> {
    if k == 0 then [Push(pkt, 0)] else LateOps(pkt, now, k - 1) + [Pull(now)]
  }

  lemma FirstPush(cfg: Config, q: Queue, pkt: Packet)
    requires cfg.Ready() && q == EMPTY_QUEUE
    ensures var q' := QueueStep(cfg, q, Push(pkt, 0)).0;
            q' == EMPTY_QUEUE.Primed(pkt, 0).(slots := map[pkt.seqNum as int := pkt])
  {
    SlotOfWrap(q.Primed(pkt, 0), pkt.seqNum, pkt.seqNum);
  }

  lemma OneLatePull(cfg: Config, q: Queue, now: Time)
    requires cfg.Ready() && q.primed && q.baseArrival == 0 && 0 <= q.next - q.base < HALF
    requires now == cfg.targetDelay + HALF * cfg.packetInterval
    ensures var q' := Take(cfg, q, now).0;
            && q'.primed && q'.base == q.base && q'.baseArrival == 0 && q'.next == q.next + 1
            && q'.slots == q.slots - {q.next}
  {
    HorizonIsExact(q.next - q.base);
    FewerIntervals(q.next - q.base, HALF, cfg.packetInterval);
    if q.next !in q.slots {
      assert q.slots - {q.next} == q.slots;
    }
  }

  lemma {:induction false} LatePulls(cfg: Config, pkt: Packet, k: nat)
    requires k <= HALF
    ensures var c := cfg.WithDefaults();
            var q := QueueRun(cfg, LateOps(pkt, c.targetDelay + HALF * c.packetInterval, k)).0;
            && q.primed && q.base == pkt.seqNum && q.baseArrival == 0 && q.next == q.base + k
            && q.slots == if k == 0 then map[q.base := pkt] else map[]
  {
    var c := cfg.WithDefaults();
    var now := c.targetDelay + HALF * c.packetInterval;
    var ops := LateOps(pkt, now, k);
    if k == 0 {
      assert ops[..0] == [];
      FirstPush(c, QueueRun(cfg, []).0, pkt);
    } else {
      LatePulls(cfg, pkt, k - 1);
      assert ops[..|ops| - 1] == LateOps(pkt, now, k - 1);
      var before := QueueRun(cfg, LateOps(pkt, now, k - 1)).0;
      OneLatePull(c, before, now);
      assert before.slots - {before.next} == map[];
    }
  }

  lemma LostEarlyThere(cfg: Config, ops: seq<Op>, s: State, q: Queue)
    requires s == BufferRun(cfg, ops).0 && q == QueueRun(cfg, ops).0
    requires q.primed && q.next - q.base >= HALF && q.next !in q.slots
    ensures PullStep(s, Nominal(s.cfg, q) - 1).1 == Lost
  {
    BufferRefinesQueue(cfg, ops);
    EarlyLossPastHorizon(s, q);
  }

  lemma PastHorizon(cfg: Config, pkt: Packet) returns (ops: seq<Op>)
    ensures var q := QueueRun(cfg, ops).0; q.primed && q.next - q.base == HALF && q.next !in q.slots
  {
    var c := cfg.WithDefaults();
    ops := LateOps(pkt, c.targetDelay + HALF * c.packetInterval, HALF);
    LatePulls(cfg, pkt, HALF);
  }

  /** It happens: one packet and 32768 pulls bring any buffer past the horizon, where the
      missing packet is called lost one moment before its nominal deadline. */
  lemma HorizonIsReached(cfg: Config, pkt: Packet) returns (ops: seq<Op>, s: State, q: Queue)
    ensures s == BufferRun(cfg, ops).0 && q == QueueRun(cfg, ops).0
    ensures q.primed && q.next - q.base == HALF && q.next !in q.slots
    ensures PullStep(s, Nominal(s.cfg, q) - 1).1 == Lost
  {
    ops := PastHorizon(cfg, pkt);
    s, q := BufferRun(cfg, ops).0, QueueRun(cfg, ops).0;
    LostEarlyThere(cfg, ops, s, q);
  }

  // ----- Capacity

  /** A Push at capacity keeps exactly the most imminent of the stored keys and the
      incoming one: everything kept is due before everything dropped. */
  lemma FullBufferKeepsMostImminent(s: State, pkt: Packet, arrival: Time)
    requires s.Valid() && s.initialized && |s.buffered| == s.cfg.maxPackets
    requires s.Ahead(pkt.seqNum) >= 0 && pkt.seqNum !in s.buffered
    ensures var s' := PushStep(s, pkt, arrival).0;
            var offered := s.buffered.Keys + {pkt.seqNum};
            && s'.buffered.Keys < offered && |s'.buffered| == s.cfg.maxPackets
            && (forall kept, dropped :: kept in s'.buffered && dropped in offered - s'.buffered.Keys ==>
                  s.Ahead(kept) < s.Ahead(dropped))
  {
    var offered := s.buffered.Keys + {pkt.seqNum};
    var far := Furthest(offered, s.nextSeq);
    var s' := PushStep(s, pkt, arrival).0;
    assert s'.buffered.Keys == offered - {far};
    if far != pkt.seqNum {
      EvictionKeepsSize(s.buffered, far, pkt);
    }
    forall kept | kept in s'.buffered
      ensures s.Ahead(kept) < s.Ahead(far)
    {
      if s.Ahead(kept) == s.Ahead(far) {
        DeltaInjective(kept, far, s.nextSeq);
      }
    }
  }
}
