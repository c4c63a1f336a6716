/** The 20 ms framing that playback applies to every injected payload, and byte
    strings cut into payloads. */
module Framing {
  import opened Collections
  import opened Media

  /** 160 samples of two bytes: pkg/rtp/duplex.go's ttsFrameBytes. */
  const FRAME := 320

  /** Playback cuts a payload into whole frames and pads the last one with silence. */
  function Frames(p: Bytes): (frames: seq<Bytes>)
    ensures forall i :: 0 <= i < |frames| ==> |frames[i]| == FRAME
  {
    if p == [] then []
    else if |p| <= FRAME then [p + seq(FRAME - |p|, i => 0)]
    else [p[..FRAME]] + Frames(p[FRAME..])
  }

  function FramesOf(payloads: seq<Bytes>): seq<Bytes> {
    if payloads == [] then [] else Frames(payloads[0]) + FramesOf(payloads[1..])
  }

  lemma {:induction false} FramesOfAppend(a: seq<Bytes>, b: seq<Bytes>)
    ensures FramesOf(a + b) == FramesOf(a) + FramesOf(b)
  {
    if a == [] {
      assert a + b == b;
    } else {
      assert (a + b)[1..] == a[1..] + b;
      FramesOfAppend(a[1..], b);
    }
  }

  /** A cut at a frame boundary is invisible to playback. */
  lemma {:induction false} FramesAppend(x: Bytes, y: Bytes)
    requires |x| % FRAME == 0
    ensures Frames(x + y) == Frames(x) + Frames(y)
  {
    if x == [] {
      assert x + y == y;
    } else if |x| == FRAME {
      assert Frames(x) == [x] by { assert x + seq(FRAME - |x|, i => 0) == x; }
      if y == [] {
        assert x + y == x;
      } else {
        assert (x + y)[..FRAME] == x && (x + y)[FRAME..] == y;
      }
    } else {
      assert (x + y)[..FRAME] == x[..FRAME] && (x + y)[FRAME..] == x[FRAME..] + y;
      FramesAppend(x[FRAME..], y);
    }
  }

  /** Every payload but the last is a positive number of whole frames. */
  ghost predicate WellCut(payloads: seq<Bytes>) {
    && (forall i :: 0 <= i < |payloads| ==> payloads[i] != [])
    && (forall i :: 0 <= i < |payloads| - 1 ==> |payloads[i]| % FRAME == 0)
  }

  /** What is played for a well cut utterance depends on its bytes alone. */
  lemma {:induction false} CutIsInaudible(payloads: seq<Bytes>)
    requires WellCut(payloads)
    ensures FramesOf(payloads) == Frames(Join(payloads))
  {
    if |payloads| == 1 {
      JoinOne(payloads[0]);
      assert payloads[1..] == [];
    } else if payloads != [] {
      CutIsInaudible(payloads[1..]);
      FramesAppend(payloads[0], Join(payloads[1..]));
    }
  }
}

/** feedTTSPacer of pkg/rtp/duplex.go: synthesized chunks of any size become
    payloads that end on frame boundaries except at the end of an utterance. */
module Feed {
  import opened Collections
  import opened Media
  import opened Framing
  import opened Seq16
  import opened Jitter

  datatype Chunk = Chunk(pcm: Bytes, isFinal: bool)

  /** What was spoken: finished utterances and the bytes of the unfinished one. */
  datatype Speech = Speech(done: seq<Bytes>, current: Bytes)

  function Spoken(chunks: seq<Chunk>): Speech {
    if chunks == [] then Speech([], [])
    else
      var s, c := Spoken(chunks[..|chunks| - 1]), chunks[|chunks| - 1];
      if c.isFinal then Speech(s.done + [s.current + c.pcm], [])
      else Speech(s.done, s.current + c.pcm)
  }

  /** The payloads pushed for each finished utterance, those pushed so far for the
      unfinished one, and the bytes held back. */
  datatype Cut = Cut(groups: seq<seq<Bytes>>, open: seq<Bytes>, carry: Bytes) {
    function Payloads(): seq<Bytes> {
      Join(groups) + open
    }
  }

  const START := Cut([], [], [])

  function Queued(payload: Bytes): seq<Bytes> {
    if payload == [] then [] else [payload]
  }

  function Aligned(n: nat): nat {
    n - n % FRAME
  }

  function Receive(f: Cut, c: Chunk): Cut {
    if c.pcm == [] && !c.isFinal then f
    else
      var buf := f.carry + c.pcm;
      var cut := Aligned(|buf|);
      var open := f.open + Queued(buf[..cut]);
      if c.isFinal then Cut(f.groups + [open + Queued(buf[cut..])], [], [])
      else Cut(f.groups, open, buf[cut..])
  }

  function Received(chunks: seq<Chunk>): Cut {
    if chunks == [] then START
    else Receive(Received(chunks[..|chunks| - 1]), chunks[|chunks| - 1])
  }

  /** The input channel closes: what is held back is flushed. */
  function Closed(f: Cut): Cut {
    Cut(f.groups, f.open + Queued(f.carry), [])
  }

  ghost predicate Faithful(f: Cut, s: Speech) {
    && |f.groups| == |s.done|
    && (forall i :: 0 <= i < |f.groups| ==> WellCut(f.groups[i]) && Join(f.groups[i]) == s.done[i])
    && (forall i :: 0 <= i < |f.open| ==> f.open[i] != [] && |f.open[i]| % FRAME == 0)
    && Join(f.open) + f.carry == s.current
    && |f.carry| < FRAME
  }

  lemma QueuedJoin(payloads: seq<Bytes>, p: Bytes)
    ensures Join(payloads + Queued(p)) == Join(payloads) + p
  {
    JoinAppend(payloads, Queued(p));
    JoinOne(p);
    if p == [] {
      assert payloads + Queued(p) == payloads;
    }
  }

  lemma CutAtFrame(before: Bytes, carry: Bytes, pcm: Bytes)
    ensures var buf := carry + pcm; var cut := Aligned(|buf|);
            && 0 <= cut <= |buf| && cut % FRAME == 0 && |buf| - cut < FRAME
            && before + buf[..cut] + buf[cut..] == before + carry + pcm
  {
  }

  lemma ReceiveIsFaithful(f: Cut, s: Speech, c: Chunk)
    requires Faithful(f, s)
    ensures var s' := if c.isFinal then Speech(s.done + [s.current + c.pcm], []) else Speech(s.done, s.current + c.pcm);
            Faithful(Receive(f, c), s')
  {
    if c.pcm == [] && !c.isFinal {
      assert s.current + c.pcm == s.current;
    } else {
      var buf := f.carry + c.pcm;
      var cut := Aligned(|buf|);
      var open := f.open + Queued(buf[..cut]);
      CutAtFrame(Join(f.open), f.carry, c.pcm);
      QueuedJoin(f.open, buf[..cut]);
      assert forall i :: 0 <= i < |open| ==> open[i] != [] && |open[i]| % FRAME == 0;
      if c.isFinal {
        QueuedJoin(open, buf[cut..]);
        assert WellCut(open + Queued(buf[cut..]));
      }
    }
  }

  /** For every chunk sequence: the payloads of each utterance carry exactly its
      bytes, are well cut, and less than one frame is held back. */
  lemma {:induction false} FeedIsFaithful(chunks: seq<Chunk>)
    ensures Faithful(Received(chunks), Spoken(chunks))
  {
    if chunks != [] {
      FeedIsFaithful(chunks[..|chunks| - 1]);
      ReceiveIsFaithful(Received(chunks[..|chunks| - 1]), Spoken(chunks[..|chunks| - 1]), chunks[|chunks| - 1]);
    }
  }

  // ----- What is played

  lemma {:induction false} GroupsPlay(groups: seq<seq<Bytes>>, utterances: seq<Bytes>)
    requires |groups| == |utterances|
    requires forall i :: 0 <= i < |groups| ==> WellCut(groups[i]) && Join(groups[i]) == utterances[i]
    ensures FramesOf(Join(groups)) == FramesOf(utterances)
    ensures Join(Join(groups)) == Join(utterances)
  {
    if groups != [] {
      GroupsPlay(groups[1..], utterances[1..]);
      CutIsInaudible(groups[0]);
      FramesOfAppend(groups[0], Join(groups[1..]));
      JoinAppend(groups[0], Join(groups[1..]));
    }
  }

  /** Once the channel has closed, the pushed payloads concatenate to exactly the
      input PCM, and the frames played are those of the utterances, one by one,
      each padded only at its own end. */
  lemma ClosedFeedPlaysUtterances(chunks: seq<Chunk>)
    ensures var payloads := Closed(Received(chunks)).Payloads();
            var s := Spoken(chunks);
            && Join(payloads) == Join(s.done) + s.current
            && FramesOf(payloads) == FramesOf(s.done) + Frames(s.current)
  {
    FeedIsFaithful(chunks);
    var f, s := Received(chunks), Spoken(chunks);
    var tail := f.open + Queued(f.carry);
    QueuedJoin(f.open, f.carry);
    assert WellCut(tail);
    CutIsInaudible(tail);
    GroupsPlay(f.groups, s.done);
    FramesOfAppend(Join(f.groups), tail);
    JoinAppend(Join(f.groups), tail);
  }

  function Pcm(chunks: seq<Chunk>): Bytes {
    if chunks == [] then [] else Pcm(chunks[..|chunks| - 1]) + chunks[|chunks| - 1].pcm
  }

  lemma SpeakOn(s: Speech, pcm: Bytes)
    ensures Join(s.done + [s.current + pcm]) == Join(s.done) + s.current + pcm
  {
    JoinAppend(s.done, [s.current + pcm]);
    JoinOne(s.current + pcm);
  }

  /** The utterances are the chunks' bytes, nothing added or dropped. */
  lemma {:induction false} SpokenBytes(chunks: seq<Chunk>)
    ensures Join(Spoken(chunks).done) + Spoken(chunks).current == Pcm(chunks)
  {
    if chunks != [] {
      var init, c := chunks[..|chunks| - 1], chunks[|chunks| - 1];
      var s := Spoken(init);
      SpokenBytes(init);
      SpeakOn(s, c.pcm);
      assert Join(s.done) + s.current + c.pcm == Join(s.done) + (s.current + c.pcm);
    }
  }

  /** Two ways of chunking the same utterances are played alike, frame by frame. */
  lemma ChunkingIsInaudible(a: seq<Chunk>, b: seq<Chunk>)
    requires Spoken(a) == Spoken(b)
    ensures FramesOf(Closed(Received(a)).Payloads()) == FramesOf(Closed(Received(b)).Payloads())
  {
    ClosedFeedPlaysUtterances(a);
    ClosedFeedPlaysUtterances(b);
  }

  // ----- The producer loop

  /** Pushes of packets numbered from 0, wrapping, at the given times. */
  ghost function PushAll(s: State, payloads: seq<Bytes>, clock: nat -> Time): State {
    if payloads == [] then s
    else
      var n := |payloads| - 1;
      PushStep(PushAll(s, payloads[..n], clock), Packet(Wrap(n), payloads[n]), clock(n)).0
  }

  class TTSPacer {
    const buf: JitterBuffer
    var pushed: nat
    ghost var payloads: seq<Bytes>

    ghost predicate Valid()
      reads this, buf
    {
      buf.Abs().Valid() && pushed == |payloads|
    }

    constructor (c: Config)
      ensures Valid() && fresh(buf)
      ensures buf.Abs() == Fresh(c) && payloads == []
    {
      buf := new JitterBuffer(c);
      pushed, payloads := 0, [];
    }

    /** Queues one payload under the next sequence number; an empty one is a no-op. */
    method Push(next: Seq16, payload: Bytes, clock: nat -> Time) returns (following: Seq16)
      requires Valid() && next == Wrap(|payloads|)
      modifies this, buf
      ensures Valid() && following == Wrap(|payloads|)
      ensures payloads == old(payloads) + Queued(payload)
      ensures buf.Abs() == if payload == [] then old(buf.Abs())
                           else PushStep(old(buf.Abs()), Packet(next, payload), clock(|old(payloads)|)).0
    {
      following := next;
      if |payload| == 0 {
        return;
      }
      var _ := buf.Push(Packet(next, payload), clock(pushed));
      following := Succ(next);
      SuccOfWrap(|payloads|);
      pushed := pushed + 1;
      payloads := payloads + [payload];
    }
  }

  lemma PushAllAppend(s: State, payloads: seq<Bytes>, p: Bytes, clock: nat -> Time)
    ensures PushAll(s, payloads + Queued(p), clock) ==
            if p == [] then PushAll(s, payloads, clock)
            else PushStep(PushAll(s, payloads, clock), Packet(Wrap(|payloads|), p), clock(|payloads|)).0
  {
    if p == [] {
      assert payloads + Queued(p) == payloads;
    } else {
      assert (payloads + [p])[..|payloads|] == payloads;
    }
  }

  /** A push, in terms of everything pushed since `initial`. */
  method Enqueue(pacer: TTSPacer, next: Seq16, payload: Bytes, clock: nat -> Time, ghost initial: State)
    returns (following: Seq16)
    requires pacer.Valid() && next == Wrap(|pacer.payloads|)
    requires pacer.buf.Abs() == PushAll(initial, pacer.payloads, clock)
    modifies pacer, pacer.buf
    ensures pacer.Valid() && following == Wrap(|pacer.payloads|)
    ensures pacer.payloads == old(pacer.payloads) + Queued(payload)
    ensures pacer.buf.Abs() == PushAll(initial, pacer.payloads, clock)
  {
    PushAllAppend(initial, pacer.payloads, payload, clock);
    following := pacer.Push(next, payload, clock);
  }

  /** What a chunk adds to the payloads queued so far. */
  lemma ReceiveQueues(f: Cut, chunk: Chunk, whole: Bytes, rest: Bytes)
    requires chunk.pcm != [] || chunk.isFinal
    requires var buf := f.carry + chunk.pcm; whole == buf[..Aligned(|buf|)] && rest == buf[Aligned(|buf|)..]
    ensures Receive(f, chunk).Payloads() == f.Payloads() + Queued(whole) + (if chunk.isFinal then Queued(rest) else [])
    ensures Receive(f, chunk).carry == if chunk.isFinal then [] else rest
  {
    if chunk.isFinal {
      FinishedGroup(f, whole, rest);
    } else {
      assert f.Payloads() + Queued(whole) == Join(f.groups) + (f.open + Queued(whole));
    }
  }

  /** One iteration of the producer loop, on one chunk. */
  method ReceiveChunk(pacer: TTSPacer, next: Seq16, carry: Bytes, chunk: Chunk, clock: nat -> Time,
                      ghost f: Cut, ghost initial: State)
    returns (following: Seq16, kept: Bytes)
    requires pacer.Valid() && next == Wrap(|pacer.payloads|)
    requires pacer.payloads == f.Payloads() && carry == f.carry
    requires pacer.buf.Abs() == PushAll(initial, pacer.payloads, clock)
    modifies pacer, pacer.buf
    ensures pacer.Valid() && following == Wrap(|pacer.payloads|)
    ensures pacer.payloads == Receive(f, chunk).Payloads() && kept == Receive(f, chunk).carry
    ensures pacer.buf.Abs() == PushAll(initial, pacer.payloads, clock)
  {
    following, kept := next, carry;
    if |chunk.pcm| == 0 && !chunk.isFinal {
      return;
    }
    var buf := carry + chunk.pcm;
    var aligned := |buf| - |buf| % FRAME;
    ReceiveQueues(f, chunk, buf[..aligned], buf[aligned..]);
    if aligned > 0 {
      following := Enqueue(pacer, following, buf[..aligned], clock, initial);
    }
    if chunk.isFinal {
      if aligned < |buf| {
        following := Enqueue(pacer, following, buf[aligned..], clock, initial);
      }
      kept := [];
    } else {
      kept := if aligned < |buf| then buf[aligned..] else [];
    }
  }

  /** The producer goroutine: it receives `chunks` and then either sees the channel
      closed or is cancelled. */
  method FeedTTSPacer(pacer: TTSPacer, chunks: seq<Chunk>, channelCloses: bool, clock: nat -> Time)
    requires pacer.Valid() && pacer.payloads == []
    modifies pacer, pacer.buf
    ensures pacer.Valid()
    ensures var f := Received(chunks);
            pacer.payloads == (if channelCloses then Closed(f) else f).Payloads()
    ensures pacer.buf.Abs() == PushAll(old(pacer.buf.Abs()), pacer.payloads, clock)
  {
    ghost var initial := pacer.buf.Abs();
    var next: Seq16 := 0;
    var carry: Bytes := [];
    for i := 0 to |chunks|
      invariant pacer.Valid() && next == Wrap(|pacer.payloads|)
      invariant pacer.payloads == Received(chunks[..i]).Payloads() && carry == Received(chunks[..i]).carry
      invariant pacer.buf.Abs() == PushAll(initial, pacer.payloads, clock)
    {
      assert chunks[..i + 1][..i] == chunks[..i];
      next, carry := ReceiveChunk(pacer, next, carry, chunks[i], clock, Received(chunks[..i]), initial);
    }
    assert chunks[..|chunks|] == chunks;
    if channelCloses {
      next := Enqueue(pacer, next, carry, clock, initial);
      assert Closed(Received(chunks)).Payloads() == Received(chunks).Payloads() + Queued(carry);
    }
  }

  lemma FinishedGroup(f: Cut, whole: Bytes, rest: Bytes)
    ensures Cut(f.groups + [f.open + Queued(whole) + Queued(rest)], [], []).Payloads()
         == f.Payloads() + Queued(whole) + Queued(rest)
  {
    JoinAppend(f.groups, [f.open + Queued(whole) + Queued(rest)]);
    JoinOne(f.open + Queued(whole) + Queued(rest));
  }

  // ----- The consumer loop

  /** One tick with `left` pushed payloads unresolved: lost slots are skipped until a
      payload is found, nothing is due yet, or all pushed payloads are resolved. */
  function Release(s: State, left: nat, now: Time): (r: (State, nat, seq<Bytes>))
    ensures r.1 <= left && |r.2| <= 1 && |r.2| <= r.1
    decreases left
  {
    if left == 0 then (s, 0, [])
    else
      var (t, result) := PullStep(s, now);
      match result
      case Lost => var (u, n, out) := Release(t, left - 1, now); (u, n + 1, out)
      case Got(packet) => (t, 1, [packet.payload])
      case _ => (t, 0, [])
  }

  /** What a tick comes to, once `done` slots of it have been skipped. */
  ghost predicate ComesTo(total: (State, nat, seq<Bytes>), s: State, left: nat, now: Time, done: nat) {
    var r := Release(s, left, now);
    total.0 == r.0 && total.1 == r.1 + done && total.2 == r.2
  }

  lemma SkipComesTo(total: (State, nat, seq<Bytes>), s: State, left: nat, now: Time, done: nat)
    requires left > 0 && ComesTo(total, s, left, now, done) && PullStep(s, now).1 == Lost
    ensures ComesTo(total, PullStep(s, now).0, left - 1, now, done + 1)
  {
  }

  lemma StopComesTo(total: (State, nat, seq<Bytes>), s: State, left: nat, now: Time, done: nat)
    requires left > 0 && ComesTo(total, s, left, now, done) && PullStep(s, now).1 != Lost
    ensures var (t, result) := PullStep(s, now);
            total == if result.Got? then (t, done + 1, [result.packet.payload]) else (t, done, [])
  {
  }

  /** One turn of the tick's loop. */
  method PullOnce(pacer: TTSPacer, now: Time, ghost total: (State, nat, seq<Bytes>), ghost left: nat, ghost done: nat)
    returns (result: PullResult)
    requires pacer.Valid() && left > 0 && ComesTo(total, pacer.buf.Abs(), left, now, done)
    modifies pacer.buf
    ensures pacer.Valid()
    ensures result.Lost? ==> ComesTo(total, pacer.buf.Abs(), left - 1, now, done + 1)
    ensures result.Got? ==> total == (pacer.buf.Abs(), done + 1, [result.packet.payload])
    ensures !result.Lost? && !result.Got? ==> total == (pacer.buf.Abs(), done, [])
  {
    ghost var before := pacer.buf.Abs();
    result := pacer.buf.Pull(now);
    if result.Lost? {
      SkipComesTo(total, before, left, now, done);
    } else {
      StopComesTo(total, before, left, now, done);
    }
  }

  lemma NothingLeft(total: (State, nat, seq<Bytes>), s: State, now: Time, done: nat)
    requires ComesTo(total, s, 0, now, done)
    ensures total == (s, done, [])
  {
  }

  /** The loop of the tick, against what it is to come to. */
  method RunTick(pacer: TTSPacer, consumed: nat, now: Time, ghost total: (State, nat, seq<Bytes>))
    returns (resolved: nat, injected: seq<Bytes>)
    requires pacer.Valid() && consumed <= pacer.pushed
    requires ComesTo(total, pacer.buf.Abs(), pacer.pushed - consumed, now, 0)
    modifies pacer.buf
    ensures pacer.Valid() && consumed <= resolved <= pacer.pushed && |injected| <= 1
    ensures total == (pacer.buf.Abs(), resolved - consumed, injected)
  {
    resolved, injected := consumed, [];
    while resolved < pacer.pushed
      invariant pacer.Valid() && consumed <= resolved <= pacer.pushed && injected == []
      invariant ComesTo(total, pacer.buf.Abs(), pacer.pushed - resolved, now, resolved - consumed)
    {
      var result := PullOnce(pacer, now, total, pacer.pushed - resolved, resolved - consumed);
      if result.Lost? {
        resolved := resolved + 1;
        continue;
      }
      if result.Got? {
        resolved := resolved + 1;
        injected := [result.packet.payload];
      }
      return;
    }
    NothingLeft(total, pacer.buf.Abs(), now, resolved - consumed);
  }

  /** The body of the consumer goroutine's tick; `injected` is what it plays. */
  method OnTick(pacer: TTSPacer, consumed: nat, now: Time) returns (resolved: nat, injected: seq<Bytes>)
    requires pacer.Valid() && consumed <= pacer.pushed
    modifies pacer.buf
    ensures pacer.Valid() && consumed <= resolved <= pacer.pushed && |injected| <= 1
    ensures (pacer.buf.Abs(), resolved - consumed, injected) == Release(old(pacer.buf.Abs()), pacer.pushed - consumed, now)
  {
    resolved, injected := RunTick(pacer, consumed, now, Release(pacer.buf.Abs(), pacer.pushed - consumed, now));
  }
}
