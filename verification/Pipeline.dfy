/** The outbound pacing pipeline of pkg/rtp/duplex.go: the producer and the ticking
    consumer interleave at buf.Push, pushed.Add, pushed.Load, Pull and inject. */
module Pipeline {
  import opened Media
  import opened Framing
  import opened Seq16
  import opened Jitter
  import opened JitterRuns
  import Feed
  import Collections

  datatype Pacer = Resting | Looking(now: Time) | Pulling(now: Time) | Injecting(payload: Bytes)

  datatype Outcome = Injected(payload: Bytes) | Dropped

  /** `queue` is the unbounded queue the buffer stands for; `sent`, `replies` and
      `outcomes` are the history: payload i was pushed with reply i and resolved as
      outcome i. */
  datatype Pipe = Pipe(
    buf: State, queue: Queue,
    sent: seq<Bytes>, replies: seq<PushStatus>, counting: bool, pushed: nat,
    pacer: Pacer, consumed: nat, outcomes: seq<Outcome>)

  datatype Step =
    | FeedPush(payload: Bytes, now: Time)
    | FeedCount
    | Tick(now: Time)
    | Look
    | PullNext
    | Inject

  function Initial(cfg: Config): Pipe {
    Pipe(Fresh(cfg), EMPTY_QUEUE, [], [], false, 0, Resting, 0, [])
  }

  /** Which steps the two goroutines may take. `limit` bounds the backlog at the
      moment of each push. */
  predicate Enabled(limit: nat, p: Pipe, step: Step) {
    match step
    case FeedPush(payload, _) => !p.counting && payload != [] && |p.sent| - p.consumed < limit
    case FeedCount => p.counting
    case Tick(_) => p.pacer.Resting?
    case Look => p.pacer.Looking?
    case PullNext => p.pacer.Pulling?
    case Inject => p.pacer.Injecting?
  }

  function Pushed(p: Pipe, payload: Bytes, buf: State, queue: Queue, status: PushStatus): Pipe {
    p.(buf := buf, queue := queue, sent := p.sent + [payload], replies := p.replies + [status], counting := true)
  }

  function Pulled(p: Pipe, buf: State, queue: Queue, result: PullResult): Pipe
    requires p.pacer.Pulling?
  {
    var after := p.(buf := buf, queue := queue);
    match result
    case Lost => after.(consumed := p.consumed + 1, outcomes := p.outcomes + [Dropped], pacer := Looking(p.pacer.now))
    case Got(packet) => after.(consumed := p.consumed + 1, pacer := Injecting(packet.payload))
    case _ => after.(pacer := Resting)
  }

  ghost function Apply(limit: nat, p: Pipe, step: Step): Pipe
    requires Enabled(limit, p, step)
  {
    match step
    case FeedPush(payload, now) =>
      var op := Push(Packet(Wrap(|p.sent|), payload), now);
      var (buf, reply) := BufferStep(p.buf, op);
      Pushed(p, payload, buf, QueueStep(p.buf.cfg, p.queue, op).0, reply.status)
    case FeedCount => p.(counting := false, pushed := p.pushed + 1)
    case Tick(now) => p.(pacer := Looking(now))
    case Look => p.(pacer := if p.consumed < p.pushed then Pulling(p.pacer.now) else Resting)
    case PullNext =>
      var (buf, result) := PullStep(p.buf, p.pacer.now);
      Pulled(p, buf, Take(p.buf.cfg, p.queue, p.pacer.now).0, result)
    case Inject => p.(outcomes := p.outcomes + [Injected(p.pacer.payload)], pacer := Resting)
  }

  /** `states` is what the pipeline goes through when the enabled `steps` are taken. */
  ghost predicate IsRun(cfg: Config, limit: nat, steps: seq<Step>, states: seq<Pipe>) {
    && |states| == |steps| + 1
    && states[0] == Initial(cfg)
    && forall i :: 0 <= i < |steps| ==>
         Enabled(limit, states[i], steps[i]) && states[i + 1] == Apply(limit, states[i], steps[i])
  }

  // ----- The invariant

  ghost predicate Tracks(p: Pipe) {
    && Inv(p.buf, p.queue)
    && p.queue.base == 0 && p.queue.next == p.consumed
    && (p.queue.primed <==> p.sent != [])
    && |p.replies| == |p.sent|
    && (forall i {:trigger i in p.queue.slots} ::
          i in p.queue.slots <==> p.consumed <= i < |p.sent| && p.replies[i] == Accepted)
    && (forall i {:trigger p.queue.slots[i]} :: i in p.queue.slots ==> p.queue.slots[i].payload == p.sent[i])
  }

  ghost predicate InStep(limit: nat, p: Pipe) {
    && p.consumed <= p.pushed
    && |p.sent| == p.pushed + (if p.counting then 1 else 0)
    && |p.sent| - p.consumed <= limit
    && (p.pacer.Pulling? ==> p.consumed < p.pushed)
    && (forall i :: 0 <= i < |p.sent| ==> p.sent[i] != [])
  }

  /** Each payload is resolved at its own place: injected if its push was accepted,
      dropped only if its push was refused for capacity. */
  ghost predicate Resolved(p: Pipe) {
    && |p.replies| == |p.sent|
    && p.consumed <= |p.sent|
    && (forall i :: 0 <= i < |p.replies| ==> p.replies[i] in {Accepted, EvictedCapacity})
    && |p.outcomes| == (if p.pacer.Injecting? then p.consumed - 1 else p.consumed)
    && (p.pacer.Injecting? ==> p.pacer.payload == p.sent[p.consumed - 1] && p.replies[p.consumed - 1] == Accepted)
    && (forall i :: 0 <= i < |p.outcomes| ==>
          p.outcomes[i] == if p.replies[i] == Accepted then Injected(p.sent[i]) else Dropped)
  }

  ghost predicate Sound(limit: nat, p: Pipe) {
    Tracks(p) && InStep(limit, p) && Resolved(p)
  }

  lemma NewestOffered(q: Queue, cap: nat, n: nat, pkt: Packet)
    requires 0 <= n - q.next < HALF && pkt.seqNum == Wrap(n) && q.base == 0
    requires forall j {:trigger j in q.slots} :: j in q.slots ==> j < n
    ensures q.SlotOf(pkt.seqNum) == n && n !in q.slots
    ensures Offer(cap, q, q.SlotOf(pkt.seqNum), pkt) ==
            if |q.slots| < cap then (q.(slots := q.slots[n := pkt]), Accepted) else (q, EvictedCapacity)
  {
  }

  lemma FirstPacketIsSlotZero(q: Queue, pkt: Packet, now: Time)
    requires q.base == 0 && (q.primed || (q.next == 0 && pkt.seqNum == 0))
    ensures var p := q.Primed(pkt, now);
            p.next == q.next && p.base == 0 && p.slots == q.slots
  {
  }

  /** A push goes into the queue at its own slot if there is room, and nowhere otherwise. */
  lemma QueuePush(cfg: Config, q: Queue, n: nat, pkt: Packet, now: Time)
    requires 0 <= n - q.next < HALF && pkt.seqNum == Wrap(n) && q.base == 0 && cfg.maxPackets >= 0
    requires q.primed || (n == 0 && q.next == 0)
    requires forall j {:trigger j in q.slots} :: j in q.slots ==> j < n
    ensures var (queue, reply) := QueueStep(cfg, q, Push(pkt, now));
            && queue.base == 0 && queue.next == q.next && queue.primed
            && reply == JitterRuns.Pushed(if |q.slots| < cfg.maxPackets then Accepted else EvictedCapacity)
            && queue.slots == (if |q.slots| < cfg.maxPackets then q.slots[n := pkt] else q.slots)
  {
    if n == 0 {
      assert Wrap(0) == 0;
    }
    FirstPacketIsSlotZero(q, pkt, now);
    NewestOffered(q.Primed(pkt, now), cfg.maxPackets, n, pkt);
  }

  lemma NewSlotTracks(p: Pipe, payload: Bytes, pkt: Packet, buf: State, queue: Queue, room: bool)
    requires Tracks(p) && pkt.payload == payload && Inv(buf, queue)
    requires queue.base == 0 && queue.next == p.consumed && queue.primed && p.consumed <= |p.sent|
    requires queue.slots == if room then p.queue.slots[|p.sent| := pkt] else p.queue.slots
    ensures Tracks(Pushed(p, payload, buf, queue, if room then Accepted else EvictedCapacity))
  {
  }

  lemma PushTracks(limit: nat, p: Pipe, payload: Bytes, now: Time)
    requires Sound(limit, p) && limit <= HALF && Enabled(limit, p, FeedPush(payload, now))
    ensures var p' := Apply(limit, p, FeedPush(payload, now));
            && Tracks(p')
            && p'.replies[|p.sent|] in {Accepted, EvictedCapacity}
            && (|p.queue.slots| < p.buf.cfg.maxPackets ==> p'.replies[|p.sent|] == Accepted)
  {
    var pkt := Packet(Wrap(|p.sent|), payload);
    var room := |p.queue.slots| < p.buf.cfg.maxPackets;
    QueuePush(p.buf.cfg, p.queue, |p.sent|, pkt, now);
    PushMatches(p.buf, p.queue, pkt, now);
    NewSlotTracks(p, payload, pkt, BufferStep(p.buf, Push(pkt, now)).0, QueueStep(p.buf.cfg, p.queue, Push(pkt, now)).0, room);
  }

  lemma PushedResolves(limit: nat, p: Pipe, payload: Bytes, buf: State, queue: Queue, status: PushStatus)
    requires InStep(limit, p) && Resolved(p) && !p.counting && payload != [] && |p.sent| - p.consumed < limit
    requires status in {Accepted, EvictedCapacity}
    ensures InStep(limit, Pushed(p, payload, buf, queue, status)) && Resolved(Pushed(p, payload, buf, queue, status))
  {
  }

  lemma PushSound(limit: nat, p: Pipe, payload: Bytes, now: Time)
    requires Sound(limit, p) && limit <= HALF && Enabled(limit, p, FeedPush(payload, now))
    ensures Sound(limit, Apply(limit, p, FeedPush(payload, now)))
  {
    PushTracks(limit, p, payload, now);
    var op := Push(Packet(Wrap(|p.sent|), payload), now);
    var (buf, reply) := BufferStep(p.buf, op);
    PushedResolves(limit, p, payload, buf, QueueStep(p.buf.cfg, p.queue, op).0, reply.status);
  }

  lemma TakenIsOwn(p: Pipe, now: Time)
    requires Tracks(p) && p.consumed < |p.sent|
    ensures var result := Take(p.buf.cfg, p.queue, now).1;
            && result != Empty
            && (result.Got? ==> p.replies[p.consumed] == Accepted && result.packet.payload == p.sent[p.consumed])
            && (result.Lost? ==> p.replies[p.consumed] != Accepted)
  {
    assert p.consumed in p.queue.slots <==> p.replies[p.consumed] == Accepted;
  }

  /** A take passes the next slot, storing nothing there any more, or changes nothing. */
  lemma TakenQueue(cfg: Config, q: Queue, now: Time)
    requires q.primed
    ensures var (queue, result) := Take(cfg, q, now);
            && queue.primed && queue.base == q.base
            && queue.next == (if result.Got? || result.Lost? then q.next + 1 else q.next)
            && queue.slots == (if result.Got? || result.Lost? then q.slots - {q.next} else q.slots)
  {
    if q.next !in q.slots {
      assert q.slots - {q.next} == q.slots;
    }
  }

  lemma PassedTracks(p: Pipe, buf: State, queue: Queue, result: PullResult)
    requires Tracks(p) && p.pacer.Pulling? && p.consumed < |p.sent| && Inv(buf, queue)
    requires queue.primed && queue.base == 0
    requires queue.next == if result.Got? || result.Lost? then p.consumed + 1 else p.consumed
    requires queue.slots == if result.Got? || result.Lost? then p.queue.slots - {p.consumed} else p.queue.slots
    ensures Tracks(Pulled(p, buf, queue, result))
  {
  }

  lemma TakenTracks(p: Pipe, buf: State, now: Time)
    requires Tracks(p) && p.pacer.Pulling? && p.consumed < |p.sent|
    requires Inv(buf, Take(p.buf.cfg, p.queue, now).0)
    ensures var (queue, result) := Take(p.buf.cfg, p.queue, now); Tracks(Pulled(p, buf, queue, result))
  {
    TakenQueue(p.buf.cfg, p.queue, now);
    var (queue, result) := Take(p.buf.cfg, p.queue, now);
    PassedTracks(p, buf, queue, result);
  }

  lemma PullTracks(limit: nat, p: Pipe)
    requires Sound(limit, p) && p.pacer.Pulling?
    ensures Tracks(Apply(limit, p, PullNext))
    ensures var result := PullStep(p.buf, p.pacer.now).1;
            && (result.Got? ==> p.replies[p.consumed] == Accepted && result.packet.payload == p.sent[p.consumed])
            && (result.Lost? ==> p.replies[p.consumed] == EvictedCapacity)
            && result != Empty
  {
    PullMatches(p.buf, p.queue, p.pacer.now);
    TakenIsOwn(p, p.pacer.now);
    TakenTracks(p, PullStep(p.buf, p.pacer.now).0, p.pacer.now);
  }

  /** Whatever Pull answers, the payload it concerns is resolved at its own place. */
  lemma PulledResolves(limit: nat, p: Pipe, buf: State, queue: Queue, result: PullResult)
    requires InStep(limit, p) && Resolved(p) && p.pacer.Pulling? && result != Empty
    requires result.Got? ==> p.replies[p.consumed] == Accepted && result.packet.payload == p.sent[p.consumed]
    requires result.Lost? ==> p.replies[p.consumed] == EvictedCapacity
    ensures InStep(limit, Pulled(p, buf, queue, result)) && Resolved(Pulled(p, buf, queue, result))
  {
  }

  lemma PullSound(limit: nat, p: Pipe)
    requires Sound(limit, p) && p.pacer.Pulling?
    ensures Sound(limit, Apply(limit, p, PullNext))
  {
    PullTracks(limit, p);
    var (buf, result) := PullStep(p.buf, p.pacer.now);
    PulledResolves(limit, p, buf, Take(p.buf.cfg, p.queue, p.pacer.now).0, result);
  }

  lemma StepSound(limit: nat, p: Pipe, step: Step)
    requires Sound(limit, p) && limit <= HALF && Enabled(limit, p, step)
    ensures Sound(limit, Apply(limit, p, step))
  {
    match step
    case FeedPush(payload, now) => PushSound(limit, p, payload, now);
    case PullNext => PullSound(limit, p);
    case _ =>
  }

  /** In every interleaving, over any number of wraps, with the backlog at each push
      below 32768: every payload is resolved exactly once and in push order, and one
      is dropped only if its own push was refused for capacity. */
  lemma {:induction false} EveryPayloadResolvedInOrder(cfg: Config, limit: nat, steps: seq<Step>, states: seq<Pipe>, n: nat)
    requires limit <= HALF && IsRun(cfg, limit, steps, states) && n < |states|
    ensures Sound(limit, states[n]) && states[n].buf.cfg == cfg.WithDefaults()
  {
    if n > 0 {
      EveryPayloadResolvedInOrder(cfg, limit, steps, states, n - 1);
      StepSound(limit, states[n - 1], steps[n - 1]);
      StepKeepsConfig(limit, states[n - 1], steps[n - 1]);
    }
  }

  lemma StepKeepsConfig(limit: nat, p: Pipe, step: Step)
    requires Enabled(limit, p, step)
    ensures Apply(limit, p, step).buf.cfg == p.buf.cfg
  {
  }

  // ----- With the backlog within the buffer's capacity nothing is dropped

  lemma {:induction false} KeysWithin(keys: set<int>, lo: int, n: nat)
    requires forall i :: i in keys ==> lo <= i < lo + n
    ensures |keys| <= n
    decreases n
  {
    if n == 0 {
      if keys != {} {
        var x := Collections.Pick(keys);
      }
    } else {
      var last := lo + n - 1;
      KeysWithin(keys - {last}, lo, n - 1);
      if last in keys {
        assert |keys - {last}| == |keys| - 1;
      } else {
        assert keys - {last} == keys;
      }
    }
  }

  ghost predicate AllAccepted(p: Pipe) {
    forall i :: 0 <= i < |p.replies| ==> p.replies[i] == Accepted
  }

  lemma StepAccepts(limit: nat, p: Pipe, step: Step)
    requires Sound(limit, p) && limit <= HALF && limit <= p.buf.cfg.maxPackets
    requires Enabled(limit, p, step) && AllAccepted(p)
    ensures AllAccepted(Apply(limit, p, step))
  {
    if step.FeedPush? {
      forall i | i in p.queue.slots.Keys
        ensures p.consumed <= i < p.consumed + (|p.sent| - p.consumed)
      {
        assert i in p.queue.slots;
      }
      KeysWithin(p.queue.slots.Keys, p.consumed, |p.sent| - p.consumed);
      assert |p.queue.slots.Keys| == |p.queue.slots|;
      PushTracks(limit, p, step.payload, step.now);
    }
  }

  lemma {:induction false} SmallBacklogAccepts(cfg: Config, limit: nat, steps: seq<Step>, states: seq<Pipe>, n: nat)
    requires limit <= HALF && limit <= cfg.WithDefaults().maxPackets
    requires IsRun(cfg, limit, steps, states) && n < |states|
    ensures AllAccepted(states[n])
  {
    if n > 0 {
      SmallBacklogAccepts(cfg, limit, steps, states, n - 1);
      EveryPayloadResolvedInOrder(cfg, limit, steps, states, n - 1);
      StepAccepts(limit, states[n - 1], steps[n - 1]);
    }
  }

  /** With the backlog never above the buffer's capacity, what has been injected is
      exactly a prefix of what was pushed. */
  lemma SmallBacklogInjectsPrefix(cfg: Config, limit: nat, steps: seq<Step>, states: seq<Pipe>, n: nat)
    requires limit <= HALF && limit <= cfg.WithDefaults().maxPackets
    requires IsRun(cfg, limit, steps, states) && n < |states|
    ensures |states[n].outcomes| <= |states[n].sent|
    ensures forall i :: 0 <= i < |states[n].outcomes| ==> states[n].outcomes[i] == Injected(states[n].sent[i])
  {
    EveryPayloadResolvedInOrder(cfg, limit, steps, states, n);
    SmallBacklogAccepts(cfg, limit, steps, states, n);
  }

  /** A push whose slot is b slots ahead of playout is refused as late exactly when b
      lies in the far half of the number circle: a backlog of 32768 is the first to
      lose payloads without any capacity refusal. */
  lemma LateExactlyInFarHalf(s: State, consumed: nat, b: nat, payload: Bytes, now: Time)
    requires s.Valid() && s.initialized && s.nextSeq == Wrap(consumed)
    ensures PushStep(s, Packet(Wrap(consumed + b), payload), now).1 == Late <==> b % MODULUS >= HALF
  {
    DeltaOfSlots(consumed + b, consumed);
  }

  // ----- End to end

  function Payloads(outcomes: seq<Outcome>): seq<Bytes> {
    if outcomes == [] then []
    else Payloads(outcomes[..|outcomes| - 1]) +
         (match outcomes[|outcomes| - 1] case Injected(p) => [p] case Dropped => [])
  }

  lemma {:induction false} InjectedPrefix(outcomes: seq<Outcome>, sent: seq<Bytes>)
    requires |outcomes| <= |sent| && forall i :: 0 <= i < |outcomes| ==> outcomes[i] == Injected(sent[i])
    ensures Payloads(outcomes) == sent[..|outcomes|]
  {
    if outcomes != [] {
      InjectedPrefix(outcomes[..|outcomes| - 1], sent);
      assert sent[..|outcomes|] == sent[..|outcomes| - 1] + [sent[|outcomes| - 1]];
    }
  }

  /** From chunks to playback: if the producer has pushed all payloads of a closed
      channel, everything is resolved and the backlog stayed within capacity, then
      the frames played are those of the utterances, whatever the chunking, the
      timing and the interleaving. */
  lemma PlaybackIsTheSpeech(cfg: Config, limit: nat, steps: seq<Step>, states: seq<Pipe>, chunks: seq<Feed.Chunk>)
    requires limit <= HALF && limit <= cfg.WithDefaults().maxPackets && IsRun(cfg, limit, steps, states)
    requires var p := states[|steps|];
             p.sent == Feed.Closed(Feed.Received(chunks)).Payloads() && |p.outcomes| == |p.sent|
    ensures var s := Feed.Spoken(chunks);
            FramesOf(Payloads(states[|steps|].outcomes)) == FramesOf(s.done) + Frames(s.current)
  {
    var p := states[|steps|];
    SmallBacklogInjectsPrefix(cfg, limit, steps, states, |steps|);
    InjectedPrefix(p.outcomes, p.sent);
    assert p.sent[..|p.outcomes|] == p.sent;
    Feed.ClosedFeedPlaysUtterances(chunks);
  }
}
