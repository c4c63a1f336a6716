/** Per-leg fallback bookkeeping of pkg/langstream/fallback.go: the raw-audio ring
    buffer, the degradation state and the passthrough chunks. */
module Ring {
  import opened Media

  type Time = int

  const DEFAULT_CAPACITY := 500

  datatype Frame = Frame(pcm: Bytes, sampleRate: int)

  /** The last n elements, or all of them if there are fewer. */
  function LastN<T>(s: seq<T>, n: nat): (r: seq<T>)
    ensures |r| == if |s| <= n then |s| else n
    ensures s == s[..|s| - |r|] + r
  {
    if |s| <= n then s else s[|s| - n..]
  }

  class AudioRingBuffer {
    const capacity: nat
    var frames: seq<Frame>
    /** Zero is the zero Time. */
    var utteranceAt: Time

    ghost predicate Valid()
      reads this
    {
      capacity > 0 && |frames| <= capacity && (utteranceAt == 0 <==> frames == [])
    }

    constructor (capacity: int)
      ensures Valid() && frames == []
      ensures this.capacity == if capacity <= 0 then DEFAULT_CAPACITY else capacity
    {
      this.capacity := if capacity <= 0 then DEFAULT_CAPACITY else capacity;
      frames, utteranceAt := [], 0;
    }

    /** One lock section. Only the first frame since a drain stamps the utterance. */
    method Push(pcm: Bytes, sampleRate: int, now: Time)
      requires Valid() && now != 0
      modifies this
      ensures Valid()
      ensures frames == if pcm == [] then old(frames) else LastN(old(frames) + [Frame(pcm, sampleRate)], capacity)
      ensures utteranceAt == if pcm != [] && old(frames) == [] then now else old(utteranceAt)
    {
      if |pcm| == 0 {
        return;
      }
      if |frames| == 0 {
        utteranceAt := now;
      }
      frames := frames + [Frame(pcm, sampleRate)];
      var over := |frames| - capacity;
      if over > 0 {
        frames := frames[over..];
      }
    }

    /** A lock section of its own: a push may fall between it and the drain. */
    method UtteranceStart() returns (t: Time)
      requires Valid()
      ensures t == utteranceAt && (t == 0 <==> frames == [])
    {
      t := utteranceAt;
    }

    method Drain() returns (batch: seq<Frame>)
      requires Valid()
      modifies this
      ensures Valid() && batch == old(frames) && frames == [] && utteranceAt == 0
    {
      batch := frames;
      frames, utteranceAt := [], 0;
    }
  }

  // ----- Whole runs

  /** What one drain returned, and what the cap had dropped since the drain before. */
  datatype Cut = Cut(dropped: seq<Frame>, batch: seq<Frame>)

  datatype History = History(frames: seq<Frame>, dropped: seq<Frame>, cuts: seq<Cut>)

  const EMPTY := History([], [], [])

  function Pushed(cap: nat, h: History, f: Frame): History {
    if f.pcm == [] then h
    else
      var all := h.frames + [f];
      var kept := LastN(all, cap);
      History(kept, h.dropped + all[..|all| - |kept|], h.cuts)
  }

  function Drained(h: History): History {
    History([], [], h.cuts + [Cut(h.dropped, h.frames)])
  }

  function CutFrames(cuts: seq<Cut>): seq<Frame> {
    if cuts == [] then []
    else CutFrames(cuts[..|cuts| - 1]) + cuts[|cuts| - 1].dropped + cuts[|cuts| - 1].batch
  }

  /** `all` is every non-empty frame pushed so far. Laid out in order they are, drain by
      drain, the dropped ones and then the batch, and last what is still in the ring; and
      nothing is dropped while there is room. */
  ghost predicate Partitioned(cap: nat, all: seq<Frame>, h: History) {
    && all == CutFrames(h.cuts) + h.dropped + h.frames
    && |h.frames| <= cap
    && (h.dropped != [] ==> |h.frames| == cap)
    && (forall j :: 0 <= j < |h.cuts| ==>
          h.cuts[j].batch == LastN(h.cuts[j].dropped + h.cuts[j].batch, cap))
  }

  lemma Regroup<T>(a: seq<T>, b: seq<T>, c: seq<T>, out: seq<T>, kept: seq<T>, f: T)
    requires c + [f] == out + kept
    ensures a + b + c + [f] == a + (b + out) + kept
  {
    assert a + b + c + [f] == a + b + (c + [f]);
    assert a + (b + out) + kept == a + b + (out + kept);
  }

  lemma PushPartitions(cap: nat, all: seq<Frame>, h: History, f: Frame)
    requires cap > 0 && Partitioned(cap, all, h)
    ensures Partitioned(cap, if f.pcm == [] then all else all + [f], Pushed(cap, h, f))
  {
    if f.pcm != [] {
      var now := h.frames + [f];
      var kept := LastN(now, cap);
      Regroup(CutFrames(h.cuts), h.dropped, h.frames, now[..|now| - |kept|], kept, f);
    }
  }

  lemma DrainPartitions(cap: nat, all: seq<Frame>, h: History)
    requires cap > 0 && Partitioned(cap, all, h)
    ensures Partitioned(cap, all, Drained(h))
  {
  }

  datatype Op = PushOp(f: Frame) | DrainOp

  function Run(cap: nat, ops: seq<Op>): History {
    if ops == [] then EMPTY
    else
      var h := Run(cap, ops[..|ops| - 1]);
      match ops[|ops| - 1]
      case PushOp(f) => Pushed(cap, h, f)
      case DrainOp => Drained(h)
  }

  function PushedFrames(ops: seq<Op>): seq<Frame> {
    if ops == [] then []
    else PushedFrames(ops[..|ops| - 1]) +
         (match ops[|ops| - 1] case PushOp(f) => (if f.pcm == [] then [] else [f]) case DrainOp => [])
  }

  /** Over any run, each non-empty frame pushed is in exactly one place, and each batch
      is the last min(cap, k) of the k frames pushed since the previous drain. */
  lemma {:induction false} EveryFrameInOnePlace(cap: nat, ops: seq<Op>)
    requires cap > 0
    ensures Partitioned(cap, PushedFrames(ops), Run(cap, ops))
  {
    if ops != [] {
      var init := ops[..|ops| - 1];
      EveryFrameInOnePlace(cap, init);
      match ops[|ops| - 1]
      case PushOp(f) =>
        PushPartitions(cap, PushedFrames(init), Run(cap, init), f);
        assert PushedFrames(init) + [] == PushedFrames(init);
      case DrainOp =>
        DrainPartitions(cap, PushedFrames(init), Run(cap, init));
        assert PushedFrames(init) + [] == PushedFrames(init);
    }
  }
}

module Passthrough {
  import opened Media
  import opened Ring

  datatype Chunk = Chunk(pcm: Bytes, sampleRate: int, isFinal: bool)

  /** The warning tone for a sample rate; its waveform is not modelled. */
  type Tone = int -> Bytes

  function Rate(frames: seq<Frame>): int {
    if frames == [] then 8000
    else if frames[0].sampleRate > 0 then frames[0].sampleRate
    else Rate(frames[1..])
  }

  function Plain(frames: seq<Frame>): (chunks: seq<Chunk>)
    ensures |chunks| == |frames|
  {
    seq(|frames|, i requires 0 <= i < |frames| => Chunk(frames[i].pcm, frames[i].sampleRate, false))
  }

  function Lead(frames: seq<Frame>, tone: Tone, toneEnabled: bool): seq<Chunk> {
    if toneEnabled then [Chunk(tone(Rate(frames)), Rate(frames), false)] else []
  }

  function Finish(chunks: seq<Chunk>, rate: int): (finished: seq<Chunk>)
    ensures |finished| == if chunks == [] then 1 else |chunks|
  {
    if chunks == [] then [Chunk([], rate, true)]
    else chunks[|chunks| - 1 := chunks[|chunks| - 1].(isFinal := true)]
  }

  /** The chunks forwarded in place of a translation. */
  function Build(frames: seq<Frame>, tone: Tone, toneEnabled: bool): (chunks: seq<Chunk>)
    ensures chunks != []
  {
    Finish(Lead(frames, tone, toneEnabled) + Plain(frames), Rate(frames))
  }

  /** An optional tone and then the audio of the batch, frame by frame and in order; an
      empty batch without a tone makes one empty chunk. */
  lemma BuildCarriesTheBatch(frames: seq<Frame>, tone: Tone, toneEnabled: bool, i: nat)
    requires i < |frames|
    ensures var chunks := Build(frames, tone, toneEnabled);
            var skip := if toneEnabled then 1 else 0;
            && |chunks| == skip + |frames|
            && chunks[skip + i].pcm == frames[i].pcm && chunks[skip + i].sampleRate == frames[i].sampleRate
            && (toneEnabled ==> chunks[0].pcm == tone(Rate(frames)))
  {
  }

  lemma EmptyBatch(tone: Tone, toneEnabled: bool)
    ensures Build([], tone, toneEnabled) == [Chunk(if toneEnabled then tone(8000) else [], 8000, true)]
  {
  }

  /** IsFinal is on the last chunk and on no other. */
  lemma OnlyLastIsFinal(frames: seq<Frame>, tone: Tone, toneEnabled: bool, i: nat)
    requires i < |Build(frames, tone, toneEnabled)|
    ensures Build(frames, tone, toneEnabled)[i].isFinal <==> i == |Build(frames, tone, toneEnabled)| - 1
  {
  }

  method BuildPassthroughChunks(frames: seq<Frame>, tone: Tone, toneEnabled: bool) returns (chunks: seq<Chunk>)
    ensures chunks == Build(frames, tone, toneEnabled)
  {
    var sampleRate := FirstRate(frames);
    chunks := [];
    if toneEnabled {
      chunks := chunks + [Chunk(tone(sampleRate), sampleRate, false)];
    }
    ghost var lead := chunks;
    ghost var body := Plain(frames);
    assert lead == Lead(frames, tone, toneEnabled);
    for i := 0 to |frames|
      invariant chunks == lead + body[..i]
    {
      chunks := chunks + [Chunk(frames[i].pcm, frames[i].sampleRate, false)];
    }
    assert body[..|frames|] == body;
    if |chunks| == 0 {
      return [Chunk([], sampleRate, true)];
    }
    chunks := chunks[|chunks| - 1 := chunks[|chunks| - 1].(isFinal := true)];
  }

  /** The rate of the first frame that has one. */
  method FirstRate(frames: seq<Frame>) returns (sampleRate: int)
    ensures sampleRate == Rate(frames)
  {
    sampleRate := 8000;
    var k := 0;
    while k < |frames|
      invariant k <= |frames| && Rate(frames) == Rate(frames[k..]) && sampleRate == 8000
    {
      if frames[k].sampleRate > 0 {
        sampleRate := frames[k].sampleRate;
        break;
      }
      k := k + 1;
    }
  }
}

module Health {
  /** consecutiveFailures and degraded. */
  datatype Health = Health(fails: nat, degraded: bool)

  const HEALTHY := Health(0, false)

  datatype Verdict = Failure(fatal: bool) | Success

  function Failed(h: Health, fatal: bool, max: int): (Health, bool) {
    if fatal then (h.(degraded := true), !h.degraded)
    else
      var n := h.fails + 1;
      if max > 0 && n >= max then (Health(n, true), !h.degraded) else (h.(fails := n), false)
  }

  class LegState {
    var consecutiveFailures: nat
    var degraded: bool

    function Abs(): Health
      reads this
    {
      Health(consecutiveFailures, degraded)
    }

    constructor ()
      ensures Abs() == HEALTHY
    {
      consecutiveFailures, degraded := 0, false;
    }

    method RecordFailure(fatal: bool, max: int) returns (newly: bool)
      modifies this
      ensures (Abs(), newly) == Failed(old(Abs()), fatal, max)
    {
      if fatal {
        newly, degraded := !degraded, true;
        return;
      }
      consecutiveFailures := consecutiveFailures + 1;
      if max > 0 && consecutiveFailures >= max {
        newly, degraded := !degraded, true;
        return;
      }
      return false;
    }

    method RecordSuccess()
      modifies this
      ensures Abs() == old(Abs()).(fails := 0)
    {
      consecutiveFailures := 0;
    }
  }

  // ----- Whole runs

  function After(max: int, verdicts: seq<Verdict>): Health {
    if verdicts == [] then HEALTHY
    else
      var h := After(max, verdicts[..|verdicts| - 1]);
      match verdicts[|verdicts| - 1]
      case Failure(fatal) => Failed(h, fatal, max).0
      case Success => h.(fails := 0)
  }

  /** Whether the i-th verdict's recordFailure call reported a new degradation. */
  predicate Reports(max: int, verdicts: seq<Verdict>, i: nat)
    requires i < |verdicts|
  {
    verdicts[i].Failure? && Failed(After(max, verdicts[..i]), verdicts[i].fatal, max).1
  }

  /** The number of non-fatal failures since the last success. */
  function Streak(verdicts: seq<Verdict>): nat {
    if verdicts == [] || verdicts[|verdicts| - 1].Success? then 0
    else Streak(verdicts[..|verdicts| - 1]) + (if verdicts[|verdicts| - 1].fatal then 0 else 1)
  }

  /** The i-th verdict is fatal, or brings the streak to the threshold. */
  predicate Trips(max: int, verdicts: seq<Verdict>, i: nat)
    requires i < |verdicts|
  {
    verdicts[i] == Failure(true) || (verdicts[i] == Failure(false) && 0 < max <= Streak(verdicts[..i + 1]))
  }

  lemma {:induction false} CountIsStreak(max: int, verdicts: seq<Verdict>)
    ensures After(max, verdicts).fails == Streak(verdicts)
  {
    if verdicts != [] {
      CountIsStreak(max, verdicts[..|verdicts| - 1]);
    }
  }

  /** The leg is degraded exactly if some verdict so far trips it; so it never reverts. */
  lemma {:induction false} DegradedIffTripped(max: int, verdicts: seq<Verdict>)
    ensures After(max, verdicts).degraded <==> exists i :: 0 <= i < |verdicts| && Trips(max, verdicts, i)
  {
    if verdicts != [] {
      var n := |verdicts| - 1;
      var init := verdicts[..n];
      DegradedIffTripped(max, init);
      CountIsStreak(max, init);
      assert verdicts[..n + 1] == verdicts;
      forall i | 0 <= i < n
        ensures Trips(max, init, i) == Trips(max, verdicts, i)
      {
        assert init[..i + 1] == verdicts[..i + 1];
      }
      if After(max, init).degraded {
        var i :| 0 <= i < |init| && Trips(max, init, i);
        assert Trips(max, verdicts, i);
      }
      assert Trips(max, verdicts, n) ==> After(max, verdicts).degraded;
    }
  }

  lemma TripsOfPrefix(max: int, verdicts: seq<Verdict>, i: nat, j: nat)
    requires j < i <= |verdicts|
    ensures Trips(max, verdicts[..i], j) == Trips(max, verdicts, j)
  {
    assert verdicts[..i][..j + 1] == verdicts[..j + 1];
  }

  /** The degradation is reported at the first tripping verdict and at no other. */
  lemma ReportedExactlyAtFirstTrip(max: int, verdicts: seq<Verdict>, i: nat)
    requires i < |verdicts|
    ensures Reports(max, verdicts, i) <==> Trips(max, verdicts, i) && forall j :: 0 <= j < i ==> !Trips(max, verdicts, j)
  {
    var before := verdicts[..i];
    CountIsStreak(max, before);
    DegradedIffTripped(max, before);
    assert verdicts[..i + 1][..i] == before;
    forall j | 0 <= j < i
      ensures Trips(max, before, j) == Trips(max, verdicts, j)
    {
      TripsOfPrefix(max, verdicts, i, j);
    }
  }

  lemma {:induction false} FirstTrip(max: int, verdicts: seq<Verdict>, i: nat) returns (k: nat)
    requires i < |verdicts| && Trips(max, verdicts, i)
    ensures k <= i && Trips(max, verdicts, k) && forall j :: 0 <= j < k ==> !Trips(max, verdicts, j)
  {
    if j: nat :| j < i && Trips(max, verdicts, j) {
      k := FirstTrip(max, verdicts, j);
    } else {
      k := i;
    }
  }

  /** One call reports the degradation if the leg is degraded, and none if it is not. */
  lemma ReportedOnce(max: int, verdicts: seq<Verdict>)
    ensures After(max, verdicts).degraded <==> exists i :: 0 <= i < |verdicts| && Reports(max, verdicts, i)
    ensures forall i, j :: 0 <= i < j < |verdicts| ==> !(Reports(max, verdicts, i) && Reports(max, verdicts, j))
  {
    DegradedIffTripped(max, verdicts);
    forall i | 0 <= i < |verdicts|
      ensures Reports(max, verdicts, i) <==> Trips(max, verdicts, i) && forall j :: 0 <= j < i ==> !Trips(max, verdicts, j)
    {
      ReportedExactlyAtFirstTrip(max, verdicts, i);
    }
    if i: nat :| i < |verdicts| && Trips(max, verdicts, i) {
      var k := FirstTrip(max, verdicts, i);
      assert Reports(max, verdicts, k);
    }
  }
}
