/** What every run of a leg keeps about who speaks, what is heard and which transcripts
    have been answered. */
module LegSpeech {
  import opened Passthrough
  import opened Leg

  // ----- Who is sending

  /** The replacement runs only once runLeg has nothing left but to return, and what
      is sent on behalf of no transcript is sent because the recognizer died. */
  predicate Roles(l: Leg) {
    && (l.drainer.Off? || l.runner.Leaving? || l.runner.Gone?)
    && (l.runner.Sending? ==> AnswersOne(l.runner.e) && !l.runner.e.cause.DeadLeg?)
    && (l.drainer.Flushing? ==> AnswersOne(l.drainer.e) && l.drainer.e.cause.DeadLeg?)
  }

  /** An utterance answers one transcript, and none exactly if the recognizer had died. */
  predicate AnswersOne(e: Emission) {
    if e.cause.AsrDied? || e.cause.DeadLeg? then e.heard == [] else |e.heard| == 1
  }

  lemma RunKeepsRoles(cfg: Config, l: Leg, step: RunStep, closing: bool, cancelled: bool)
    requires Roles(l) && RunEnabled(l, step, cancelled)
    ensures Roles(RunApply(cfg, l, step, closing, cancelled))
  {
  }

  lemma TalkKeepsRoles(cfg: Config, l: Leg, step: TalkStep, cancelled: bool)
    requires Roles(l) && TalkEnabled(l, step, cancelled)
    ensures Roles(TalkApply(cfg, l, step, cancelled))
  {
  }

  lemma TellKeepsRoles(l: Leg, step: TellStep, cancelled: bool)
    requires Roles(l) && TellEnabled(l, step, cancelled)
    ensures Roles(TellApply(l, step, cancelled))
  {
  }

  lemma DeadKeepsRoles(cfg: Config, l: Leg, step: DeadStep, closing: bool, cancelled: bool)
    requires Roles(l) && DeadEnabled(l, step, cancelled)
    ensures Roles(DeadApply(cfg, l, step, closing, cancelled))
  {
  }

  // ----- (1) What is heard: the utterances one after the other, each whole unless
  // ----- cancellation cut it short

  function Current(l: Leg): seq<Emission> {
    if l.runner.Sending? then [l.runner.e] else if l.drainer.Flushing? then [l.drainer.e] else []
  }

  function SentOf(log: seq<Entry>): seq<Chunk> {
    if log == [] then [] else SentOf(log[..|log| - 1]) + log[|log| - 1].e.sent
  }

  ghost predicate WellSent(cfg: Config, e: Emission) {
    e.sent + e.todo == Plan(cfg, e.cause, e.batch)
  }

  ghost predicate Audible(cfg: Config, out: seq<Chunk>, log: seq<Entry>, current: seq<Emission>) {
    && out == SentOf(log) + (if current == [] then [] else current[0].sent)
    && (forall i :: 0 <= i < |current| ==> WellSent(cfg, current[i]))
    && (forall i :: 0 <= i < |log| ==> WellSent(cfg, log[i].e) && (!log[i].aborted ==> log[i].e.todo == []))
  }

  ghost predicate Heard(cfg: Config, l: Leg) {
    Audible(cfg, l.out, l.log, Current(l))
  }

  /** What a step means to a listener. */
  datatype Effect =
    | Quiet
    | Begun(e: Emission)
    | Sent(e: Emission)
    | Ended(e: Emission, aborted: bool)
    | Skipped(e: Emission, aborted: bool)

  ghost predicate HasEffect(cfg: Config, l: Leg, l': Leg, f: Effect) {
    match f
    case Quiet => l'.out == l.out && l'.log == l.log && Current(l') == Current(l)
    case Begun(e) =>
      l'.out == l.out && l'.log == l.log && Current(l) == [] && Current(l') == [e] &&
      e.sent == [] && e.todo == Plan(cfg, e.cause, e.batch)
    case Sent(e) =>
      Current(l) == [e] && e.todo != [] && Current(l') == [Advance(e)] && l'.out == l.out + [e.todo[0]] && l'.log == l.log
    case Ended(e, aborted) =>
      Current(l) == [e] && Current(l') == [] && l'.out == l.out && l'.log == l.log + [Entry(e, aborted)] &&
      (aborted || e.todo == [])
    case Skipped(e, aborted) =>
      Current(l) == [] == Current(l') && l'.out == l.out && l'.log == l.log + [Entry(e, aborted)] &&
      e.sent == [] && e.todo == Plan(cfg, e.cause, e.batch) && (aborted || e.todo == []) && AnswersOne(e)
  }

  lemma RunEffect(cfg: Config, l: Leg, step: RunStep, closing: bool, cancelled: bool)
    requires Roles(l) && RunEnabled(l, step, cancelled)
    ensures HasEffect(cfg, l, RunApply(cfg, l, step, closing, cancelled),
                      if step.DrainDead? then Begun(Start(cfg, AsrDied, [], |l.ring.cuts|, l.ring.frames)) else Quiet)
  {
  }

  lemma TalkEffect(cfg: Config, l: Leg, step: TalkStep, cancelled: bool) returns (f: Effect)
    requires Roles(l) && TalkEnabled(l, step, cancelled)
    ensures HasEffect(cfg, l, TalkApply(cfg, l, step, cancelled), f)
  {
    match step
    case DrainUtterance => f := Quiet;
    case Decide =>
      f := if l.health.degraded then Begun(Answer(cfg, Degraded, l.runner.u))
           else if 0.0 < l.runner.u.t.confidence < cfg.threshold then Begun(Answer(cfg, LowConfidence, l.runner.u))
           else Quiet;
    case TranslateFails(fatal) => f := Begun(Answer(cfg, TranslateFailed(fatal), l.runner.u));
    case Translated(text) => f := if text == "" then Skipped(Answer(cfg, Silent, l.runner.u), false) else Quiet;
    case SynthFails(fatal) => f := Begun(Answer(cfg, SynthFailed(fatal), l.runner.u));
    case StreamOpens(_) => f := Quiet;
    case FirstArrives =>
      var e := Answer(cfg, Spoke(l.runner.stream), l.runner.u);
      f := if l.runner.stream == [] then Skipped(e, false) else Begun(e);
    case Stall => f := Begun(Answer(cfg, Stalled, l.runner.u));
    case AbortWait => f := Skipped(Answer(cfg, Spoke(l.runner.stream), l.runner.u), true);
  }

  lemma TellEffect(cfg: Config, l: Leg, step: TellStep, cancelled: bool)
    requires Roles(l) && TellEnabled(l, step, cancelled)
    ensures HasEffect(cfg, l, TellApply(l, step, cancelled),
                      if step.Send? then Sent(l.runner.e) else Ended(l.runner.e, step.Abort?))
  {
  }

  lemma DeadEffect(cfg: Config, l: Leg, step: DeadStep, closing: bool, cancelled: bool) returns (f: Effect)
    requires Roles(l) && DeadEnabled(l, step, cancelled)
    ensures HasEffect(cfg, l, DeadApply(cfg, l, step, closing, cancelled), f)
  {
    match step
    case Poll => f := if l.ring.frames == [] then Quiet else Begun(Start(cfg, DeadLeg, [], |l.ring.cuts|, l.ring.frames));
    case SeeCancelDead => f := if l.ring.frames == [] then Quiet else Begun(Start(cfg, DeadLeg, [], |l.ring.cuts|, l.ring.frames));
    case FlushSend => f := Sent(l.drainer.e);
    case FlushFinish => f := Ended(l.drainer.e, false);
    case FlushAbort => f := Ended(l.drainer.e, true);
    case _ => f := Quiet;
  }

  lemma AudibleSent(cfg: Config, out: seq<Chunk>, log: seq<Entry>, e: Emission)
    requires Audible(cfg, out, log, [e]) && e.todo != []
    ensures Audible(cfg, out + [e.todo[0]], log, [Advance(e)])
  {
    assert WellSent(cfg, [e][0]);
    assert e.sent + e.todo == e.sent + [e.todo[0]] + e.todo[1..];
    assert SentOf(log) + e.sent + [e.todo[0]] == SentOf(log) + (e.sent + [e.todo[0]]);
  }

  lemma AudibleLogged(cfg: Config, out: seq<Chunk>, log: seq<Entry>, e: Emission, aborted: bool)
    requires Audible(cfg, out, log, [e]) && (aborted || e.todo == [])
    ensures Audible(cfg, out, log + [Entry(e, aborted)], [])
  {
  }

  lemma EffectKeepsHeard(cfg: Config, l: Leg, l': Leg, f: Effect)
    requires Heard(cfg, l) && HasEffect(cfg, l, l', f)
    ensures Heard(cfg, l')
  {
    match f
    case Quiet =>
    case Begun(_) =>
    case Sent(e) => AudibleSent(cfg, l.out, l.log, e);
    case Ended(e, aborted) => AudibleLogged(cfg, l.out, l.log, e, aborted);
    case Skipped(e, aborted) => AudibleLogged(cfg, l.out, l.log, e, aborted);
  }

  ghost predicate EachAnswersOne(log: seq<Entry>) {
    forall i :: 0 <= i < |log| ==> AnswersOne(log[i].e)
  }

  lemma EffectKeepsOne(cfg: Config, l: Leg, l': Leg, f: Effect)
    requires Roles(l) && EachAnswersOne(l.log) && HasEffect(cfg, l, l', f)
    ensures EachAnswersOne(l'.log)
  {
  }

  // ----- (2) Every final transcript has exactly one outcome, in the order of arrival

  function Finals(ts: seq<Transcript>): seq<Transcript> {
    if ts == [] then [] else Finals(ts[..|ts| - 1]) + (if ts[|ts| - 1].isFinal then [ts[|ts| - 1]] else [])
  }

  function HeardIn(log: seq<Entry>): seq<Transcript> {
    if log == [] then [] else HeardIn(log[..|log| - 1]) + log[|log| - 1].e.heard
  }

  function InHand(r: Runner): seq<Transcript> {
    match r
    case Draining(t) => [t]
    case Deciding(u) => [u.t]
    case Translating(u) => [u.t]
    case Synthesizing(u) => [u.t]
    case FirstChunk(u, _) => [u.t]
    case Sending(e) => e.heard
    case _ => []
  }

  /** The transcripts taken off the queue: those of utterances ended and the one in hand. */
  function Taken(l: Leg): seq<Transcript> {
    HeardIn(l.log) + InHand(l.runner)
  }

  ghost predicate Answered(l: Leg) {
    Finals(l.arrived) == Taken(l) + Finals(l.queue)
  }

  lemma RunTakes(cfg: Config, l: Leg, step: RunStep, closing: bool, cancelled: bool)
    requires Roles(l) && RunEnabled(l, step, cancelled)
    ensures var l' := RunApply(cfg, l, step, closing, cancelled);
            && l'.arrived == l.arrived
            && (if step.Receive? then l'.queue == l.queue[1..] && Taken(l') == Taken(l) + (if l.queue[0].isFinal then [l.queue[0]] else [])
                else l'.queue == l.queue && Taken(l') == Taken(l))
  {
  }

  /** What is in hand either stays in hand, or is logged and let go of. */
  ghost predicate KeepsHand(l: Leg, l': Leg) {
    && l'.arrived == l.arrived && l'.queue == l.queue
    && (if |l'.log| == |l.log| then l'.log == l.log && InHand(l'.runner) == InHand(l.runner)
        else |l'.log| == |l.log| + 1 && l'.log == l.log + [l'.log[|l.log|]] && InHand(l'.runner) == [] &&
             l'.log[|l.log|].e.heard == InHand(l.runner))
  }

  lemma FirstChunkKeepsHand(cfg: Config, l: Leg, step: TalkStep, cancelled: bool)
    requires l.runner.FirstChunk? && TalkEnabled(l, step, cancelled)
    ensures KeepsHand(l, TalkApply(cfg, l, step, cancelled))
  {
  }

  lemma TranslatingKeepsHand(cfg: Config, l: Leg, step: TalkStep, cancelled: bool)
    requires l.runner.Translating? && TalkEnabled(l, step, cancelled)
    ensures KeepsHand(l, TalkApply(cfg, l, step, cancelled))
  {
  }

  lemma TalkKeepsHand(cfg: Config, l: Leg, step: TalkStep, cancelled: bool)
    requires TalkEnabled(l, step, cancelled)
    ensures KeepsHand(l, TalkApply(cfg, l, step, cancelled))
  {
    if l.runner.FirstChunk? {
      FirstChunkKeepsHand(cfg, l, step, cancelled);
    } else if l.runner.Translating? {
      TranslatingKeepsHand(cfg, l, step, cancelled);
    }
  }

  lemma TellKeepsHand(l: Leg, step: TellStep, cancelled: bool)
    requires TellEnabled(l, step, cancelled)
    ensures KeepsHand(l, TellApply(l, step, cancelled))
  {
  }

  lemma DeadKeepsHand(cfg: Config, l: Leg, step: DeadStep, closing: bool, cancelled: bool)
    requires Roles(l) && DeadEnabled(l, step, cancelled)
    ensures KeepsHand(l, DeadApply(cfg, l, step, closing, cancelled))
  {
  }

  lemma HandIsTaken(l: Leg, l': Leg)
    requires KeepsHand(l, l')
    ensures l'.arrived == l.arrived && l'.queue == l.queue && Taken(l') == Taken(l)
  {
  }

  lemma {:induction false} FinalsAppend(a: seq<Transcript>, b: seq<Transcript>)
    ensures Finals(a + b) == Finals(a) + Finals(b)
  {
    if b == [] {
      assert a + b == a;
    } else {
      FinalsAppend(a, b[..|b| - 1]);
      assert (a + b)[..|a + b| - 1] == a + b[..|b| - 1] && (a + b)[|a + b| - 1] == b[|b| - 1];
    }
  }

  lemma Received(l: Leg, l': Leg)
    requires Answered(l) && l.queue != [] && l'.arrived == l.arrived && l'.queue == l.queue[1..]
    requires Taken(l') == Taken(l) + (if l.queue[0].isFinal then [l.queue[0]] else [])
    ensures Answered(l')
  {
    FinalsAppend([l.queue[0]], l.queue[1..]);
    assert [l.queue[0]] + l.queue[1..] == l.queue;
    assert Finals([l.queue[0]]) == if l.queue[0].isFinal then [l.queue[0]] else [];
  }

  lemma EnvAnswered(cfg: Config, l: Leg, step: EnvStep)
    requires Answered(l)
    ensures Answered(EnvApply(cfg, l, step))
  {
  }

  /** Only taking a final transcript off the queue changes what has been taken: nothing is
      lost from hand to log, and nothing is answered twice. */
  lemma StepTakes(cfg: Config, l: Leg, step: Step, closing: bool, cancelled: bool)
    requires Roles(l) && Enabled(l, step, cancelled)
    ensures Taken(Apply(cfg, l, step, closing, cancelled)) ==
            Taken(l) + (if step == Run(Receive) && l.queue[0].isFinal then [l.queue[0]] else [])
  {
    match step
    case Env(_) =>
    case Run(run) => RunTakes(cfg, l, run, closing, cancelled);
    case Talk(talk) =>
      TalkKeepsHand(cfg, l, talk, cancelled);
      HandIsTaken(l, TalkApply(cfg, l, talk, cancelled));
    case Tell(tell) =>
      TellKeepsHand(l, tell, cancelled);
      HandIsTaken(l, TellApply(l, tell, cancelled));
    case Dead(dead) =>
      DeadKeepsHand(cfg, l, dead, closing, cancelled);
      HandIsTaken(l, DeadApply(cfg, l, dead, closing, cancelled));
  }

  // ----- (3) Cancellation is the only thing that cuts anything short

  ghost predicate Unhurried(l: Leg, cancelled: bool) {
    && (forall i :: 0 <= i < |l.log| && l.log[i].aborted ==> cancelled)
    && (match l.runner
        case Noticing => l.asrClosed && l.queue == []
        case Dying => l.asrClosed && l.queue == []
        case DrainingDead => l.asrClosed && l.queue == []
        case Adding => l.asrClosed && l.queue == []
        case Starting => l.asrClosed && l.queue == []
        case Sending(e) => e.cause.AsrDied? ==> l.asrClosed && l.queue == []
        case Leaving => cancelled || (l.asrClosed && l.queue == [])
        case Gone => cancelled || (l.asrClosed && l.queue == [])
        case _ => true)
  }

  lemma RunUnhurried(cfg: Config, l: Leg, step: RunStep, closing: bool, cancelled: bool)
    requires Unhurried(l, cancelled) && RunEnabled(l, step, cancelled)
    ensures Unhurried(RunApply(cfg, l, step, closing, cancelled), cancelled)
  {
  }

  lemma TalkUnhurried(cfg: Config, l: Leg, step: TalkStep, cancelled: bool)
    requires Unhurried(l, cancelled) && TalkEnabled(l, step, cancelled)
    ensures Unhurried(TalkApply(cfg, l, step, cancelled), cancelled)
  {
  }

  lemma TellUnhurried(l: Leg, step: TellStep, cancelled: bool)
    requires Unhurried(l, cancelled) && TellEnabled(l, step, cancelled)
    ensures Unhurried(TellApply(l, step, cancelled), cancelled)
  {
  }

  lemma DeadUnhurried(cfg: Config, l: Leg, step: DeadStep, closing: bool, cancelled: bool)
    requires Unhurried(l, cancelled) && DeadEnabled(l, step, cancelled)
    ensures Unhurried(DeadApply(cfg, l, step, closing, cancelled), cancelled)
  {
  }

  // ----- All together

  ghost predicate Orderly(cfg: Config, l: Leg, cancelled: bool) {
    Roles(l) && Heard(cfg, l) && Answered(l) && EachAnswersOne(l.log) && Unhurried(l, cancelled)
  }

  lemma RunOrderly(cfg: Config, l: Leg, step: RunStep, closing: bool, cancelled: bool)
    requires Orderly(cfg, l, cancelled) && RunEnabled(l, step, cancelled)
    ensures Orderly(cfg, RunApply(cfg, l, step, closing, cancelled), cancelled)
  {
    var l' := RunApply(cfg, l, step, closing, cancelled);
    RunKeepsRoles(cfg, l, step, closing, cancelled);
    RunUnhurried(cfg, l, step, closing, cancelled);
    RunEffect(cfg, l, step, closing, cancelled);
    var f := if step.DrainDead? then Begun(Start(cfg, AsrDied, [], |l.ring.cuts|, l.ring.frames)) else Quiet;
    EffectKeepsHeard(cfg, l, l', f);
    EffectKeepsOne(cfg, l, l', f);
    RunTakes(cfg, l, step, closing, cancelled);
    if step.Receive? {
      Received(l, l');
    }
  }

  lemma TalkOrderly(cfg: Config, l: Leg, step: TalkStep, cancelled: bool)
    requires Orderly(cfg, l, cancelled) && TalkEnabled(l, step, cancelled)
    ensures Orderly(cfg, TalkApply(cfg, l, step, cancelled), cancelled)
  {
    var l' := TalkApply(cfg, l, step, cancelled);
    TalkKeepsRoles(cfg, l, step, cancelled);
    TalkUnhurried(cfg, l, step, cancelled);
    var f := TalkEffect(cfg, l, step, cancelled);
    EffectKeepsHeard(cfg, l, l', f);
    EffectKeepsOne(cfg, l, l', f);
    TalkKeepsHand(cfg, l, step, cancelled);
    HandIsTaken(l, l');
  }

  lemma TellOrderly(cfg: Config, l: Leg, step: TellStep, cancelled: bool)
    requires Orderly(cfg, l, cancelled) && TellEnabled(l, step, cancelled)
    ensures Orderly(cfg, TellApply(l, step, cancelled), cancelled)
  {
    var l' := TellApply(l, step, cancelled);
    TellKeepsRoles(l, step, cancelled);
    TellUnhurried(l, step, cancelled);
    TellEffect(cfg, l, step, cancelled);
    var f := if step.Send? then Sent(l.runner.e) else Ended(l.runner.e, step.Abort?);
    EffectKeepsHeard(cfg, l, l', f);
    EffectKeepsOne(cfg, l, l', f);
    TellKeepsHand(l, step, cancelled);
    HandIsTaken(l, l');
  }

  lemma DeadOrderly(cfg: Config, l: Leg, step: DeadStep, closing: bool, cancelled: bool)
    requires Orderly(cfg, l, cancelled) && DeadEnabled(l, step, cancelled)
    ensures Orderly(cfg, DeadApply(cfg, l, step, closing, cancelled), cancelled)
  {
    var l' := DeadApply(cfg, l, step, closing, cancelled);
    DeadKeepsRoles(cfg, l, step, closing, cancelled);
    DeadUnhurried(cfg, l, step, closing, cancelled);
    var f := DeadEffect(cfg, l, step, closing, cancelled);
    EffectKeepsHeard(cfg, l, l', f);
    EffectKeepsOne(cfg, l, l', f);
    DeadKeepsHand(cfg, l, step, closing, cancelled);
    HandIsTaken(l, l');
  }

  lemma StepOrderly(cfg: Config, l: Leg, step: Step, closing: bool, cancelled: bool)
    requires Orderly(cfg, l, cancelled) && Enabled(l, step, cancelled)
    ensures Orderly(cfg, Apply(cfg, l, step, closing, cancelled), cancelled)
  {
    match step
    case Env(env) => EnvAnswered(cfg, l, env);
    case Run(run) => RunOrderly(cfg, l, run, closing, cancelled);
    case Talk(talk) => TalkOrderly(cfg, l, talk, cancelled);
    case Tell(tell) => TellOrderly(cfg, l, tell, cancelled);
    case Dead(dead) => DeadOrderly(cfg, l, dead, closing, cancelled);
  }
}
