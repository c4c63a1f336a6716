/** One direction of a call, runLeg and the drainDeadLeg it may hand over to in
    pkg/langstream/session.go, as interleaved atomic steps. A select is a choice among
    its enabled cases; the recognizer, the translator, the synthesizer and the
    consumer of the outbound channel answer as they like. */
module Leg {
  import opened Ring
  import opened Passthrough
  import opened Health

  /** `threshold` is ConfidenceThreshold and `max` MaxConsecutiveFailures. */
  datatype Config = Config(cap: nat, max: int, threshold: real, tone: Tone, toneEnabled: bool)

  datatype Transcript = Transcript(text: string, confidence: real, isFinal: bool)

  /** Why an utterance ended as it did. `Spoke` holds everything the synthesizer's
      stream delivers before it closes. */
  datatype Cause =
    | Degraded | LowConfidence | TranslateFailed(fatal: bool) | SynthFailed(fatal: bool) | Stalled
    | Silent | Spoke(stream: seq<Chunk>)
    | AsrDied | DeadLeg

  /** A final transcript, the drain that took its audio and that audio. */
  datatype Utterance = Utterance(t: Transcript, cut: nat, batch: seq<Frame>)

  /** One utterance being sent: the chunks sent for it so far and those still to send. */
  datatype Emission = Emission(cause: Cause, heard: seq<Transcript>, cut: nat, batch: seq<Frame>, sent: seq<Chunk>, todo: seq<Chunk>)

  datatype Runner =
    | Waiting | Noticing | Dying | DrainingDead | Adding | Starting | Leaving | Gone
    | Draining(t: Transcript)
    | Deciding(u: Utterance)
    | Translating(u: Utterance)
    | Synthesizing(u: Utterance)
    | FirstChunk(u: Utterance, stream: seq<Chunk>)
    | Sending(e: Emission)

  datatype Drainer = Off | Polling | Checking | DrainerLeaving | DrainerGone | Flushing(e: Emission, last: bool)

  datatype Entry = Entry(e: Emission, aborted: bool)

  /** `pushed`, `arrived`, `log` and `calls` are history: the non-empty frames pushed,
      the transcripts the recognizer produced, the utterances ended, and the failures and
      successes recorded. */
  datatype Leg = Leg(
    queue: seq<Transcript>, asrClosed: bool, ring: History, health: Health,
    runner: Runner, drainer: Drainer, out: seq<Chunk>,
    pushed: seq<Frame>, arrived: seq<Transcript>, log: seq<Entry>, calls: seq<Verdict>)

  const FRESH := Leg([], false, EMPTY, HEALTHY, Waiting, Off, [], [], [], [], [])

  datatype EnvStep = PushAudio(f: Frame) | Recognize(t: Transcript) | CloseTranscripts

  datatype RunStep = Receive | SeeClosed | SeeCancel | LoadClosing | MarkDead | DrainDead | AddOne | Go | Exit

  datatype TalkStep =
    | DrainUtterance | Decide
    | TranslateFails(fatal: bool) | Translated(text: string)
    | SynthFails(fatal: bool) | StreamOpens(stream: seq<Chunk>)
    | FirstArrives | Stall | AbortWait

  datatype TellStep = Send | Finish | Abort

  datatype DeadStep = Poll | SeeCancelDead | FlushSend | FlushFinish | FlushAbort | CheckClosing | ExitDead

  /** `Run` is the receive loop of runLeg, `Talk` what it does with one transcript and
      `Tell` its sending; `Dead` is drainDeadLeg. */
  datatype Step = Env(env: EnvStep) | Run(run: RunStep) | Talk(talk: TalkStep) | Tell(tell: TellStep) | Dead(dead: DeadStep)

  // ----- What an utterance sends

  /** A stream whose very first chunk is final is not read any further. */
  function Forwarded(stream: seq<Chunk>): seq<Chunk> {
    if stream != [] && stream[0].isFinal then [stream[0]] else stream
  }

  /** All that an utterance is to send: synthesized audio only, or passthrough only. */
  function Plan(cfg: Config, cause: Cause, batch: seq<Frame>): seq<Chunk> {
    match cause
    case Silent => []
    case Spoke(stream) => Forwarded(stream)
    case _ => Build(batch, cfg.tone, cfg.toneEnabled)
  }

  function Start(cfg: Config, cause: Cause, heard: seq<Transcript>, cut: nat, batch: seq<Frame>): Emission {
    Emission(cause, heard, cut, batch, [], Plan(cfg, cause, batch))
  }

  function Answer(cfg: Config, cause: Cause, u: Utterance): Emission {
    Start(cfg, cause, [u.t], u.cut, u.batch)
  }

  function Advance(e: Emission): Emission
    requires e.todo != []
  {
    e.(sent := e.sent + [e.todo[0]], todo := e.todo[1..])
  }

  /** A send loop looks at the context before each receive, except that a stream whose
      first chunk was final ends without looking again. */
  predicate LooksAtContext(e: Emission) {
    e.todo != [] || !(e.cause.Spoke? && e.cause.stream != [] && e.cause.stream[0].isFinal)
  }

  // ----- Steps. `closing` and `cancelled` belong to the session.

  predicate RunEnabled(l: Leg, step: RunStep, cancelled: bool) {
    match step
    case Receive => l.runner.Waiting? && l.queue != []
    case SeeClosed => l.runner.Waiting? && l.queue == [] && l.asrClosed
    case SeeCancel => l.runner.Waiting? && cancelled
    case LoadClosing => l.runner.Noticing?
    case MarkDead => l.runner.Dying?
    case DrainDead => l.runner.DrainingDead?
    case AddOne => l.runner.Adding?
    case Go => l.runner.Starting?
    case Exit => l.runner.Leaving?
  }

  predicate TalkEnabled(l: Leg, step: TalkStep, cancelled: bool) {
    match step
    case DrainUtterance => l.runner.Draining?
    case Decide => l.runner.Deciding?
    case TranslateFails(_) => l.runner.Translating?
    case Translated(_) => l.runner.Translating?
    case SynthFails(_) => l.runner.Synthesizing?
    case StreamOpens(_) => l.runner.Synthesizing?
    case FirstArrives => l.runner.FirstChunk?
    case Stall => l.runner.FirstChunk? && !cancelled
    case AbortWait => l.runner.FirstChunk? && cancelled
  }

  predicate TellEnabled(l: Leg, step: TellStep, cancelled: bool) {
    match step
    case Send => l.runner.Sending? && l.runner.e.todo != []
    case Finish => l.runner.Sending? && l.runner.e.todo == []
    case Abort => l.runner.Sending? && cancelled && LooksAtContext(l.runner.e)
  }

  predicate DeadEnabled(l: Leg, step: DeadStep, cancelled: bool) {
    match step
    case Poll => l.drainer.Polling?
    case SeeCancelDead => l.drainer.Polling? && cancelled
    case FlushSend => l.drainer.Flushing? && l.drainer.e.todo != []
    case FlushFinish => l.drainer.Flushing? && l.drainer.e.todo == []
    case FlushAbort => l.drainer.Flushing? && cancelled
    case CheckClosing => l.drainer.Checking?
    case ExitDead => l.drainer.DrainerLeaving?
  }

  predicate Enabled(l: Leg, step: Step, cancelled: bool) {
    match step
    case Env(env) => env.PushAudio? || !l.asrClosed
    case Run(run) => RunEnabled(l, run, cancelled)
    case Talk(talk) => TalkEnabled(l, talk, cancelled)
    case Tell(tell) => TellEnabled(l, tell, cancelled)
    case Dead(dead) => DeadEnabled(l, dead, cancelled)
  }

  function Succeed(l: Leg): Leg { l.(health := l.health.(fails := 0), calls := l.calls + [Success]) }

  function Fail(cfg: Config, l: Leg, fatal: bool): Leg {
    l.(health := Failed(l.health, fatal, cfg.max).0, calls := l.calls + [Failure(fatal)])
  }

  function FallBack(cfg: Config, l: Leg, cause: Cause, u: Utterance): Leg {
    l.(runner := Sending(Answer(cfg, cause, u)))
  }

  function Logged(l: Leg, e: Emission, aborted: bool): Leg {
    l.(log := l.log + [Entry(e, aborted)])
  }

  function Decided(cfg: Config, l: Leg, u: Utterance): Leg {
    if l.health.degraded then FallBack(cfg, l, Degraded, u)
    else if 0.0 < u.t.confidence < cfg.threshold then FallBack(cfg, l, LowConfidence, u)
    else l.(runner := Translating(u))
  }

  function AfterTranslate(cfg: Config, l: Leg, text: string, u: Utterance): Leg {
    if text == "" then Logged(Succeed(l), Answer(cfg, Silent, u), false).(runner := Waiting)
    else Succeed(l).(runner := Synthesizing(u))
  }

  function AfterFirst(cfg: Config, l: Leg, u: Utterance, stream: seq<Chunk>): Leg {
    if stream == [] then Succeed(Logged(l, Answer(cfg, Spoke(stream), u), false)).(runner := Waiting)
    else l.(runner := Sending(Answer(cfg, Spoke(stream), u)))
  }

  /** The result of the send after the recognizer died is ignored: the replacement is
      started either way. */
  function AfterSending(l: Leg, e: Emission, aborted: bool): Leg {
    var done := Logged(l, e, aborted);
    if e.cause.AsrDied? then done.(runner := Adding)
    else if aborted then done.(runner := Leaving)
    else if e.cause.Spoke? then Succeed(done).(runner := Waiting)
    else done.(runner := Waiting)
  }

  function Polled(cfg: Config, l: Leg, last: bool): Leg {
    var batch := l.ring.frames;
    l.(ring := Drained(l.ring),
       drainer := if batch != [] then Flushing(Start(cfg, DeadLeg, [], |l.ring.cuts|, batch), last)
                  else if last then DrainerLeaving else Checking)
  }

  function EnvApply(cfg: Config, l: Leg, step: EnvStep): Leg {
    match step
    case PushAudio(f) =>
      l.(ring := Pushed(cfg.cap, l.ring, f), pushed := if f.pcm == [] then l.pushed else l.pushed + [f])
    case Recognize(t) => l.(queue := l.queue + [t], arrived := l.arrived + [t])
    case CloseTranscripts => l.(asrClosed := true)
  }

  function RunApply(cfg: Config, l: Leg, step: RunStep, closing: bool, cancelled: bool): Leg
    requires RunEnabled(l, step, cancelled)
  {
    match step
    case Receive =>
      l.(queue := l.queue[1..], runner := if l.queue[0].isFinal then Draining(l.queue[0]) else Waiting)
    case SeeClosed => l.(runner := Noticing)
    case SeeCancel => l.(runner := Leaving)
    case LoadClosing => l.(runner := if closing then Leaving else Dying)
    case MarkDead =>
      l.(health := Failed(l.health, true, 0).0, calls := l.calls + [Failure(true)], runner := DrainingDead)
    case DrainDead =>
      l.(ring := Drained(l.ring), runner := Sending(Start(cfg, AsrDied, [], |l.ring.cuts|, l.ring.frames)))
    case AddOne => l.(runner := Starting)
    case Go => l.(runner := Leaving, drainer := Polling)
    case Exit => l.(runner := Gone)
  }

  function TalkApply(cfg: Config, l: Leg, step: TalkStep, cancelled: bool): Leg
    requires TalkEnabled(l, step, cancelled)
  {
    match step
    case DrainUtterance =>
      l.(ring := Drained(l.ring), runner := Deciding(Utterance(l.runner.t, |l.ring.cuts|, l.ring.frames)))
    case Decide => Decided(cfg, l, l.runner.u)
    case TranslateFails(fatal) => FallBack(cfg, Fail(cfg, l, fatal), TranslateFailed(fatal), l.runner.u)
    case Translated(text) => AfterTranslate(cfg, l, text, l.runner.u)
    case SynthFails(fatal) => FallBack(cfg, Fail(cfg, l, fatal), SynthFailed(fatal), l.runner.u)
    case StreamOpens(stream) => l.(runner := FirstChunk(l.runner.u, stream))
    case FirstArrives => AfterFirst(cfg, l, l.runner.u, l.runner.stream)
    case Stall => FallBack(cfg, Fail(cfg, l, false), Stalled, l.runner.u)
    case AbortWait => Logged(l, Answer(cfg, Spoke(l.runner.stream), l.runner.u), true).(runner := Leaving)
  }

  function TellApply(l: Leg, step: TellStep, cancelled: bool): Leg
    requires TellEnabled(l, step, cancelled)
  {
    match step
    case Send => l.(out := l.out + [l.runner.e.todo[0]], runner := Sending(Advance(l.runner.e)))
    case Finish => AfterSending(l, l.runner.e, false)
    case Abort => AfterSending(l, l.runner.e, true)
  }

  function DeadApply(cfg: Config, l: Leg, step: DeadStep, closing: bool, cancelled: bool): Leg
    requires DeadEnabled(l, step, cancelled)
  {
    match step
    case Poll => Polled(cfg, l, false)
    case SeeCancelDead => Polled(cfg, l, true)
    case FlushSend => l.(out := l.out + [l.drainer.e.todo[0]], drainer := Flushing(Advance(l.drainer.e), l.drainer.last))
    case FlushFinish => Logged(l, l.drainer.e, false).(drainer := if l.drainer.last then DrainerLeaving else Checking)
    case FlushAbort => Logged(l, l.drainer.e, true).(drainer := DrainerLeaving)
    case CheckClosing => l.(drainer := if closing then DrainerLeaving else Polling)
    case ExitDead => l.(drainer := DrainerGone)
  }

  function Apply(cfg: Config, l: Leg, step: Step, closing: bool, cancelled: bool): Leg
    requires Enabled(l, step, cancelled)
  {
    match step
    case Env(env) => EnvApply(cfg, l, env)
    case Run(run) => RunApply(cfg, l, run, closing, cancelled)
    case Talk(talk) => TalkApply(cfg, l, talk, cancelled)
    case Tell(tell) => TellApply(l, tell, cancelled)
    case Dead(dead) => DeadApply(cfg, l, dead, closing, cancelled)
  }

  predicate Sends(step: Step) {
    step == Tell(Send) || step == Dead(FlushSend)
  }

  /** What the wait group counts for this leg. */
  function Alive(l: Leg): nat {
    (match l.runner case Gone => 0 case Starting => 2 case _ => 1) +
    (if l.drainer.Off? || l.drainer.DrainerGone? then 0 else 1)
  }
}
