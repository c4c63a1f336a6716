/** The playout buffer of pkg/rtp/jitter.go: packets keyed by a wrapping 16-bit
    sequence number, a fixed playout deadline per slot, eviction at capacity. */
module Seq16 {
  const MODULUS := 0x1_0000
  const HALF := 0x8000

  type Seq16 = x: int | 0 <= x < MODULUS

  /** The sequence number carried by the packet of unbounded slot i. */
  function Wrap(i: int): Seq16 {
    i % MODULUS
  }

  /** What `uint16` addition of one gives. */
  function Succ(k: Seq16): Seq16 {
    if k == MODULUS - 1 then 0 else k + 1
  }

  /** The signed circular distance from b to a: `uint16` subtraction read as `int16`. */
  function SeqDelta(a: Seq16, b: Seq16): (d: int)
    ensures -HALF <= d < HALF
  {
    var u := a - b;
    if u >= HALF then u - MODULUS else if u < -HALF then u + MODULUS else u
  }

  /** The distance is the one number of steps in the int16 range from b to a. */
  lemma DeltaIsUnique(a: Seq16, b: Seq16, d: int)
    ensures d == SeqDelta(a, b) <==> -HALF <= d < HALF && Wrap(b + d) == a
  {
  }

  /** Slots less than half the number space apart are told apart exactly, and a
      slot reads as past exactly when it is in the far half of the circle. */
  lemma DeltaOfSlots(i: int, j: int)
    ensures -HALF <= i - j < HALF <==> SeqDelta(Wrap(i), Wrap(j)) == i - j
    ensures SeqDelta(Wrap(i), Wrap(j)) < 0 <==> (i - j) % MODULUS >= HALF
  {
  }

  lemma DeltaInjective(a: Seq16, b: Seq16, from: Seq16)
    requires SeqDelta(a, from) == SeqDelta(b, from)
    ensures a == b
  {
  }

  lemma SuccOfWrap(i: int)
    ensures Succ(Wrap(i)) == Wrap(i + 1)
  {
  }
}

module Jitter {
  import opened Collections
  import opened Media
  import opened Seq16

  type Time = int

  const DEFAULT_TARGET_DELAY: Time := 60_000_000
  const DEFAULT_PACKET_INTERVAL: Time := 20_000_000
  const DEFAULT_MAX_PACKETS := 200

  datatype Packet = Packet(seqNum: Seq16, payload: Bytes)

  datatype Config = Config(targetDelay: Time, packetInterval: Time, maxPackets: int) {
    predicate Ready() {
      targetDelay > 0 && packetInterval > 0 && maxPackets > 0
    }

    function WithDefaults(): (c: Config)
      ensures c.Ready()
      ensures Ready() ==> c == this
    {
      Config(if targetDelay <= 0 then DEFAULT_TARGET_DELAY else targetDelay,
             if packetInterval <= 0 then DEFAULT_PACKET_INTERVAL else packetInterval,
             if maxPackets <= 0 then DEFAULT_MAX_PACKETS else maxPackets)
    }
  }

  datatype PushStatus = Accepted | Duplicate | Late | EvictedCapacity
  datatype PullResult = Empty | Got(packet: Packet) | Waiting | Lost

  datatype Stats = Stats(received: nat, duplicates: nat, late: nat, evicted: nat, lost: nat)

  const NO_STATS := Stats(0, 0, 0, 0, 0)

  /** The buffer's fields as one value; the specification of Push and Pull works on it. */
  datatype State = State(
    cfg: Config, initialized: bool, baseSeq: Seq16, baseArrival: Time, nextSeq: Seq16,
    buffered: map<Seq16, Packet>, stats: Stats)
  {
    function Ahead(k: Seq16): int {
      SeqDelta(k, nextSeq)
    }

    function Deadline(k: Seq16): Time {
      baseArrival + cfg.targetDelay + SeqDelta(k, baseSeq) * cfg.packetInterval
    }

    /** What holds between calls, whatever sequence numbers were pushed. */
    ghost predicate Valid() {
      && cfg.Ready()
      && |buffered| <= cfg.maxPackets
      && (!initialized ==> buffered == map[])
      && (forall k :: k in buffered ==> Ahead(k) >= 0 && buffered[k].seqNum == k)
    }

    /** The first packet ever pushed fixes the base. */
    function Primed(first: Packet, arrival: Time): State {
      if initialized then this
      else this.(initialized := true, baseSeq := first.seqNum, baseArrival := arrival, nextSeq := first.seqNum)
    }
  }

  function Fresh(cfg: Config): State {
    State(cfg.WithDefaults(), false, 0, 0, 0, map[], NO_STATS)
  }

  ghost predicate IsFurthest(k: Seq16, keys: set<Seq16>, from: Seq16) {
    k in keys && forall j :: j in keys ==> SeqDelta(j, from) <= SeqDelta(k, from)
  }

  lemma FurthestExists(keys: set<Seq16>, from: Seq16)
    requires keys != {}
    ensures exists k :: IsFurthest(k, keys, from)
  {
    var far := MostExists(keys, (k: Seq16) => SeqDelta(k, from));
    assert IsFurthest(far, keys, from);
  }

  /** Two different keys never tie, so which key is furthest does not depend on
      the order in which a map is iterated. */
  lemma FurthestUnique(j: Seq16, k: Seq16, keys: set<Seq16>, from: Seq16)
    requires IsFurthest(j, keys, from) && IsFurthest(k, keys, from)
    ensures j == k
  {
  }

  ghost function Furthest(keys: set<Seq16>, from: Seq16): (k: Seq16)
    requires keys != {}
    ensures IsFurthest(k, keys, from)
  {
    FurthestExists(keys, from);
    var k :| IsFurthest(k, keys, from);
    k
  }

  ghost function PushStep(s0: State, pkt: Packet, arrival: Time): (State, PushStatus) {
    var s := s0.Primed(pkt, arrival);
    var st := s.stats;
    if s.Ahead(pkt.seqNum) < 0 then
      (s.(stats := st.(late := st.late + 1)), Late)
    else if pkt.seqNum in s.buffered then
      (s.(stats := st.(duplicates := st.duplicates + 1)), Duplicate)
    else if |s.buffered| < s.cfg.maxPackets then
      (s.(buffered := s.buffered[pkt.seqNum := pkt], stats := st.(received := st.received + 1)), Accepted)
    else
      var furthest := Furthest(s.buffered.Keys + {pkt.seqNum}, s.nextSeq);
      if furthest == pkt.seqNum then
        (s.(stats := st.(evicted := st.evicted + 1)), EvictedCapacity)
      else
        (s.(buffered := (s.buffered - {furthest})[pkt.seqNum := pkt],
            stats := st.(evicted := st.evicted + 1, received := st.received + 1)), Accepted)
  }

  function PullStep(s: State, now: Time): (State, PullResult) {
    if !s.initialized then
      (s, Empty)
    else if s.nextSeq in s.buffered then
      (s.(buffered := s.buffered - {s.nextSeq}, nextSeq := Succ(s.nextSeq)), Got(s.buffered[s.nextSeq]))
    else if now < s.Deadline(s.nextSeq) then
      (s, Waiting)
    else
      (s.(nextSeq := Succ(s.nextSeq), stats := s.stats.(lost := s.stats.lost + 1)), Lost)
  }

  class JitterBuffer {
    const cfg: Config
    var initialized: bool
    var baseSeq: Seq16
    var baseArrival: Time
    var nextSeq: Seq16
    var buffered: map<Seq16, Packet>
    var stats: Stats

    function Abs(): State
      reads this
    {
      State(cfg, initialized, baseSeq, baseArrival, nextSeq, buffered, stats)
    }

    constructor (c: Config)
      ensures Abs() == Fresh(c) && Abs().Valid()
    {
      cfg := c.WithDefaults();
      initialized, baseSeq, baseArrival, nextSeq := false, 0, 0, 0;
      buffered, stats := map[], NO_STATS;
    }

    /** The scan Push runs at capacity; the map is visited in an arbitrary order. */
    method FurthestSeq(incoming: Seq16) returns (furthestSeq: Seq16)
      ensures furthestSeq == Furthest(buffered.Keys + {incoming}, nextSeq)
    {
      furthestSeq := incoming;
      var furthestDist := SeqDelta(incoming, nextSeq);
      var unvisited := buffered.Keys;
      while unvisited != {}
        invariant unvisited <= buffered.Keys
        invariant furthestDist == SeqDelta(furthestSeq, nextSeq)
        invariant IsFurthest(furthestSeq, (buffered.Keys - unvisited) + {incoming}, nextSeq)
        decreases unvisited
      {
        var candidate :| candidate in unvisited;
        unvisited := unvisited - {candidate};
        var d := SeqDelta(candidate, nextSeq);
        if d > furthestDist {
          furthestSeq, furthestDist := candidate, d;
        }
      }
      assert (buffered.Keys - unvisited) + {incoming} == buffered.Keys + {incoming};
      FurthestUnique(furthestSeq, Furthest(buffered.Keys + {incoming}, nextSeq), buffered.Keys + {incoming}, nextSeq);
    }

    /** Evicts the furthest of the buffered keys and the incoming one; there is room
        unless that is the incoming one. */
    method MakeRoom(incoming: Seq16) returns (room: bool)
      modifies this`buffered, this`stats
      ensures var far := Furthest(old(buffered).Keys + {incoming}, nextSeq);
              && (room <==> far != incoming)
              && buffered == if room then old(buffered) - {far} else old(buffered)
      ensures stats == old(stats).(evicted := old(stats).evicted + 1)
    {
      var furthestSeq := FurthestSeq(incoming);
      stats := stats.(evicted := stats.evicted + 1);
      if furthestSeq == incoming {
        return false;
      }
      buffered := buffered - {furthestSeq};
      return true;
    }

    method Push(pkt: Packet, arrival: Time) returns (status: PushStatus)
      requires Abs().Valid()
      modifies this
      ensures Abs().Valid()
      ensures (Abs(), status) == PushStep(old(Abs()), pkt, arrival)
    {
      ghost var before := Abs();
      PushKeepsValid(before, pkt, arrival);
      if !initialized {
        initialized, baseSeq, baseArrival, nextSeq := true, pkt.seqNum, arrival, pkt.seqNum;
      }
      ghost var primed := Abs();
      assert primed == before.Primed(pkt, arrival);
      var dist := SeqDelta(pkt.seqNum, nextSeq);
      if dist < 0 {
        stats := stats.(late := stats.late + 1);
        return Late;
      }
      if pkt.seqNum in buffered {
        stats := stats.(duplicates := stats.duplicates + 1);
        return Duplicate;
      }
      if |buffered| >= cfg.maxPackets {
        var room := MakeRoom(pkt.seqNum);
        if !room {
          return EvictedCapacity;
        }
      }
      buffered := buffered[pkt.seqNum := pkt];
      stats := stats.(received := stats.received + 1);
      return Accepted;
    }

    method Pull(now: Time) returns (result: PullResult)
      requires Abs().Valid()
      modifies this
      ensures Abs().Valid()
      ensures (Abs(), result) == PullStep(old(Abs()), now)
    {
      PullKeepsValid(Abs(), now);
      if !initialized {
        return Empty;
      }
      if nextSeq in buffered {
        result := Got(buffered[nextSeq]);
        buffered := buffered - {nextSeq};
        nextSeq := Succ(nextSeq);
        return;
      }
      var steps := SeqDelta(nextSeq, baseSeq);
      if now < baseArrival + cfg.targetDelay + steps * cfg.packetInterval {
        return Waiting;
      }
      nextSeq := Succ(nextSeq);
      stats := stats.(lost := stats.lost + 1);
      return Lost;
    }
  }

  lemma PushKeepsValid(s: State, pkt: Packet, arrival: Time)
    requires s.Valid()
    ensures PushStep(s, pkt, arrival).0.Valid()
  {
    var p := s.Primed(pkt, arrival);
    if p.Ahead(pkt.seqNum) >= 0 && pkt.seqNum !in p.buffered {
      if |p.buffered| < p.cfg.maxPackets {
        assert p.buffered[pkt.seqNum := pkt].Keys == p.buffered.Keys + {pkt.seqNum};
      } else {
        var f := Furthest(p.buffered.Keys + {pkt.seqNum}, p.nextSeq);
        if f != pkt.seqNum {
          EvictionKeepsSize(p.buffered, f, pkt);
        }
      }
    }
  }

  lemma EvictionKeepsSize(m: map<Seq16, Packet>, out: Seq16, pkt: Packet)
    requires out in m && pkt.seqNum !in m
    ensures |(m - {out})[pkt.seqNum := pkt]| == |m|
  {
  }

  /** A key that is ahead but not the next stays ahead when the playout point moves on. */
  lemma AheadOfNext(k: Seq16, next: Seq16)
    requires SeqDelta(k, next) >= 0 && k != next
    ensures SeqDelta(k, Succ(next)) >= 0
  {
  }

  /** Moving on from a number that is not stored keeps every stored key ahead. */
  lemma SkipKeepsValid(s: State, stats: Stats)
    requires s.Valid() && s.initialized && s.nextSeq !in s.buffered
    ensures s.(nextSeq := Succ(s.nextSeq), stats := stats).Valid()
  {
    forall k | k in s.buffered
      ensures SeqDelta(k, Succ(s.nextSeq)) >= 0
    {
      assert s.Ahead(k) >= 0;
      AheadOfNext(k, s.nextSeq);
    }
  }

  lemma PullKeepsValid(s: State, now: Time)
    requires s.Valid()
    ensures PullStep(s, now).0.Valid()
  {
  }
}
