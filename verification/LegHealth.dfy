/** A leg's degradation: what it depends on, and what it prevents. */
module LegHealth {
  import opened Health
  import opened Leg
  import opened LegSpeech

  function Succeeded(h: Health): Health { h.(fails := 0) }

  /** The health once the failures and successes of an utterance are recorded, before
      it is sent. */
  function Charge(cfg: Config, h: Health, cause: Cause): Health {
    match cause
    case TranslateFailed(fatal) => Failed(h, fatal, cfg.max).0
    case SynthFailed(fatal) => Failed(Succeeded(h), fatal, cfg.max).0
    case Stalled => Failed(Succeeded(h), false, cfg.max).0
    case Silent => Succeeded(h)
    case Spoke(_) => Succeeded(h)
    case AsrDied => Failed(h, true, cfg.max).0
    case _ => h
  }

  /** A stream that was not cut short is a success once more. */
  function Outcome(cfg: Config, h: Health, entry: Entry): Health {
    var after := Charge(cfg, h, entry.e.cause);
    if entry.e.cause.Spoke? && !entry.aborted then Succeeded(after) else after
  }

  /** The leg's health after the utterances in a log. */
  function Before(cfg: Config, log: seq<Entry>): Health {
    if log == [] then HEALTHY else Outcome(cfg, Before(cfg, log[..|log| - 1]), log[|log| - 1])
  }

  function Midway(cfg: Config, h: Health, r: Runner): Health {
    match r
    case DrainingDead => Failed(h, true, cfg.max).0
    case Synthesizing(_) => Succeeded(h)
    case FirstChunk(_, _) => Succeeded(h)
    case Sending(e) => Charge(cfg, h, e.cause)
    case _ => h
  }

  /** The health is what the outcomes of the utterances make it. */
  ghost predicate Tallied(cfg: Config, l: Leg) {
    l.health == Midway(cfg, Before(cfg, l.log), l.runner)
  }

  ghost predicate KeepsTally(cfg: Config, h: Health, l: Leg, l': Leg) {
    if |l'.log| == |l.log| then l'.log == l.log && l'.health == Midway(cfg, h, l'.runner)
    else
      && |l'.log| == |l.log| + 1 && l'.log == l.log + [l'.log[|l.log|]]
      && l'.health == Midway(cfg, Outcome(cfg, h, l'.log[|l.log|]), l'.runner)
  }

  lemma TallyKept(cfg: Config, l: Leg, l': Leg)
    requires KeepsTally(cfg, Before(cfg, l.log), l, l')
    ensures Tallied(cfg, l')
  {
  }

  lemma FirstChunkTallies(cfg: Config, h: Health, l: Leg, step: TalkStep, cancelled: bool)
    requires l.runner.FirstChunk? && TalkEnabled(l, step, cancelled) && l.health == Succeeded(h)
    ensures KeepsTally(cfg, h, l, TalkApply(cfg, l, step, cancelled))
  {
  }

  lemma TranslatedTallies(cfg: Config, h: Health, l: Leg, text: string, u: Utterance)
    requires l.health == h
    ensures KeepsTally(cfg, h, l, AfterTranslate(cfg, l, text, u))
  {
    if text == "" {
      assert Outcome(cfg, h, Entry(Answer(cfg, Silent, u), false)) == Succeeded(h);
    }
  }

  lemma TranslateFailedTallies(cfg: Config, h: Health, l: Leg, fatal: bool, u: Utterance)
    requires l.health == h
    ensures KeepsTally(cfg, h, l, FallBack(cfg, Fail(cfg, l, fatal), TranslateFailed(fatal), u))
  {
  }

  lemma SynthesizingTallies(cfg: Config, h: Health, l: Leg, step: TalkStep, cancelled: bool)
    requires l.runner.Synthesizing? && TalkEnabled(l, step, cancelled) && l.health == Succeeded(h)
    ensures KeepsTally(cfg, h, l, TalkApply(cfg, l, step, cancelled))
  {
  }

  lemma TalkTallies(cfg: Config, h: Health, l: Leg, step: TalkStep, cancelled: bool)
    requires TalkEnabled(l, step, cancelled) && l.health == Midway(cfg, h, l.runner)
    ensures KeepsTally(cfg, h, l, TalkApply(cfg, l, step, cancelled))
  {
    if l.runner.FirstChunk? {
      FirstChunkTallies(cfg, h, l, step, cancelled);
    } else if step.Translated? {
      TranslatedTallies(cfg, h, l, step.text, l.runner.u);
    } else if step.TranslateFails? {
      TranslateFailedTallies(cfg, h, l, step.fatal, l.runner.u);
    } else if l.runner.Synthesizing? {
      SynthesizingTallies(cfg, h, l, step, cancelled);
    }
  }

  lemma TellTallies(cfg: Config, h: Health, l: Leg, step: TellStep, cancelled: bool)
    requires TellEnabled(l, step, cancelled) && l.health == Midway(cfg, h, l.runner)
    ensures KeepsTally(cfg, h, l, TellApply(l, step, cancelled))
  {
  }

  lemma DeadTallies(cfg: Config, h: Health, l: Leg, step: DeadStep, closing: bool, cancelled: bool)
    requires Roles(l) && DeadEnabled(l, step, cancelled) && l.health == Midway(cfg, h, l.runner)
    ensures KeepsTally(cfg, h, l, DeadApply(cfg, l, step, closing, cancelled))
  {
  }

  // ----- Decisions

  predicate Doubtful(cfg: Config, t: Transcript) {
    0.0 < t.confidence < cfg.threshold
  }

  /** Which outcomes an utterance may have, given the health of the leg when it began:
      nothing is translated or synthesized once the leg is degraded. */
  ghost predicate Fitting(cfg: Config, before: Health, e: Emission) {
    |e.heard| == 1 ==>
      && (e.cause.Degraded? <==> before.degraded)
      && (!before.degraded ==> (e.cause.LowConfidence? <==> Doubtful(cfg, e.heard[0])))
  }

  ghost predicate Fits(cfg: Config, before: Health, r: Runner) {
    match r
    case Translating(u) => !before.degraded && !Doubtful(cfg, u.t)
    case Synthesizing(u) => !before.degraded && !Doubtful(cfg, u.t)
    case FirstChunk(u, _) => !before.degraded && !Doubtful(cfg, u.t)
    case Sending(e) => Fitting(cfg, before, e)
    case _ => true
  }

  ghost predicate LogFits(cfg: Config, log: seq<Entry>) {
    forall i :: 0 <= i < |log| ==> Fitting(cfg, Before(cfg, log[..i]), log[i].e)
  }

  ghost predicate Decisive(cfg: Config, l: Leg) {
    LogFits(cfg, l.log) && Fits(cfg, Before(cfg, l.log), l.runner)
  }

  lemma LogStillFits(cfg: Config, log: seq<Entry>, entry: Entry)
    requires LogFits(cfg, log) && Fitting(cfg, Before(cfg, log), entry.e)
    ensures LogFits(cfg, log + [entry])
  {
    var more := log + [entry];
    forall i | 0 <= i < |more|
      ensures Fitting(cfg, Before(cfg, more[..i]), more[i].e)
    {
      assert more[..i] == log[..i];
      assert log[..|log|] == log;
    }
  }

  /** The runner stays within what fits, or logs something that fits. */
  ghost predicate KeepsFit(cfg: Config, before: Health, l: Leg, l': Leg) {
    if |l'.log| == |l.log| then l'.log == l.log && Fits(cfg, before, l'.runner)
    else
      && |l'.log| == |l.log| + 1 && l'.log == l.log + [l'.log[|l.log|]]
      && Fitting(cfg, before, l'.log[|l.log|].e)
      && (forall h: Health {:trigger Fits(cfg, h, l'.runner)} :: Fits(cfg, h, l'.runner))
  }

  lemma FitKept(cfg: Config, l: Leg, l': Leg)
    requires Decisive(cfg, l) && KeepsFit(cfg, Before(cfg, l.log), l, l')
    ensures Decisive(cfg, l')
  {
    if |l'.log| > |l.log| {
      LogStillFits(cfg, l.log, l'.log[|l.log|]);
    }
  }

  lemma TalkFits(cfg: Config, before: Health, l: Leg, step: TalkStep, cancelled: bool)
    requires TalkEnabled(l, step, cancelled) && Fits(cfg, before, l.runner)
    requires l.runner.Deciding? ==> l.health.degraded == before.degraded
    ensures KeepsFit(cfg, before, l, TalkApply(cfg, l, step, cancelled))
  {
  }

  lemma TellFits(cfg: Config, before: Health, l: Leg, step: TellStep, cancelled: bool)
    requires Roles(l) && TellEnabled(l, step, cancelled) && Fits(cfg, before, l.runner)
    ensures KeepsFit(cfg, before, l, TellApply(l, step, cancelled))
  {
  }

  lemma DeadFits(cfg: Config, before: Health, l: Leg, step: DeadStep, closing: bool, cancelled: bool)
    requires Roles(l) && DeadEnabled(l, step, cancelled)
    ensures KeepsFit(cfg, before, l, DeadApply(cfg, l, step, closing, cancelled))
  {
  }

  ghost predicate Healthy(cfg: Config, l: Leg) {
    Tallied(cfg, l) && Decisive(cfg, l)
  }

  lemma RunHealthy(cfg: Config, l: Leg, step: RunStep, closing: bool, cancelled: bool)
    requires Roles(l) && Healthy(cfg, l) && RunEnabled(l, step, cancelled)
    ensures Healthy(cfg, RunApply(cfg, l, step, closing, cancelled))
    ensures l.health.degraded ==> RunApply(cfg, l, step, closing, cancelled).health.degraded
  {
  }

  lemma TalkHealthy(cfg: Config, l: Leg, step: TalkStep, cancelled: bool)
    requires Healthy(cfg, l) && TalkEnabled(l, step, cancelled)
    ensures Healthy(cfg, TalkApply(cfg, l, step, cancelled))
    ensures l.health.degraded ==> TalkApply(cfg, l, step, cancelled).health.degraded
  {
    var l' := TalkApply(cfg, l, step, cancelled);
    TalkTallies(cfg, Before(cfg, l.log), l, step, cancelled);
    TallyKept(cfg, l, l');
    TalkFits(cfg, Before(cfg, l.log), l, step, cancelled);
    FitKept(cfg, l, l');
  }

  lemma TellHealthy(cfg: Config, l: Leg, step: TellStep, cancelled: bool)
    requires Roles(l) && Healthy(cfg, l) && TellEnabled(l, step, cancelled)
    ensures Healthy(cfg, TellApply(l, step, cancelled))
    ensures l.health.degraded ==> TellApply(l, step, cancelled).health.degraded
  {
    var l' := TellApply(l, step, cancelled);
    TellTallies(cfg, Before(cfg, l.log), l, step, cancelled);
    TallyKept(cfg, l, l');
    TellFits(cfg, Before(cfg, l.log), l, step, cancelled);
    FitKept(cfg, l, l');
  }

  lemma DeadHealthy(cfg: Config, l: Leg, step: DeadStep, closing: bool, cancelled: bool)
    requires Roles(l) && Healthy(cfg, l) && DeadEnabled(l, step, cancelled)
    ensures Healthy(cfg, DeadApply(cfg, l, step, closing, cancelled))
    ensures l.health.degraded ==> DeadApply(cfg, l, step, closing, cancelled).health.degraded
  {
    var l' := DeadApply(cfg, l, step, closing, cancelled);
    DeadTallies(cfg, Before(cfg, l.log), l, step, closing, cancelled);
    TallyKept(cfg, l, l');
    DeadFits(cfg, Before(cfg, l.log), l, step, closing, cancelled);
    FitKept(cfg, l, l');
  }

  /** Health stays the fold of the outcomes, decisions stay fitting, and degradation
      never reverts. */
  lemma StepHealthy(cfg: Config, l: Leg, step: Step, closing: bool, cancelled: bool)
    requires Roles(l) && Healthy(cfg, l) && Enabled(l, step, cancelled)
    ensures Healthy(cfg, Apply(cfg, l, step, closing, cancelled))
    ensures l.health.degraded ==> Apply(cfg, l, step, closing, cancelled).health.degraded
  {
    match step
    case Env(_) =>
    case Run(run) => RunHealthy(cfg, l, run, closing, cancelled);
    case Talk(talk) => TalkHealthy(cfg, l, talk, cancelled);
    case Tell(tell) => TellHealthy(cfg, l, tell, cancelled);
    case Dead(dead) => DeadHealthy(cfg, l, dead, closing, cancelled);
  }

  /** While a degraded leg lives, it neither translates nor synthesizes. */
  lemma DegradedLegIsIdle(cfg: Config, l: Leg)
    requires Healthy(cfg, l) && l.health.degraded
    ensures !l.runner.Translating? && !l.runner.Synthesizing? && !l.runner.FirstChunk?
  {
  }

  // ----- The calls made on legState

  /** The recordFailure and recordSuccess calls of an utterance, in order. */
  function Verdicts(entry: Entry): seq<Verdict> {
    match entry.e.cause
    case TranslateFailed(fatal) => [Failure(fatal)]
    case SynthFailed(fatal) => [Success, Failure(fatal)]
    case Stalled => [Success, Failure(false)]
    case Silent => [Success]
    case Spoke(_) => if entry.aborted then [Success] else [Success, Success]
    case AsrDied => [Failure(true)]
    case _ => []
  }

  function VerdictsOf(log: seq<Entry>): seq<Verdict> {
    if log == [] then [] else VerdictsOf(log[..|log| - 1]) + Verdicts(log[|log| - 1])
  }

  function Judged(max: int, h: Health, v: Verdict): Health {
    if v.Failure? then Failed(h, v.fatal, max).0 else Succeeded(h)
  }

  lemma AfterOne(max: int, vs: seq<Verdict>, v: Verdict)
    ensures After(max, vs + [v]) == Judged(max, After(max, vs), v)
  {
  }

  lemma AfterTwo(max: int, vs: seq<Verdict>, v: Verdict, w: Verdict)
    ensures After(max, vs + [v, w]) == Judged(max, Judged(max, After(max, vs), v), w)
  {
    AfterOne(max, vs, v);
    AfterOne(max, vs + [v], w);
    assert vs + [v] + [w] == vs + [v, w];
  }

  lemma OutcomeIsVerdicts(cfg: Config, vs: seq<Verdict>, entry: Entry)
    ensures After(cfg.max, vs + Verdicts(entry)) == Outcome(cfg, After(cfg.max, vs), entry)
  {
    match entry.e.cause
    case TranslateFailed(fatal) => AfterOne(cfg.max, vs, Failure(fatal));
    case SynthFailed(fatal) => AfterTwo(cfg.max, vs, Success, Failure(fatal));
    case Stalled => AfterTwo(cfg.max, vs, Success, Failure(false));
    case Silent => AfterOne(cfg.max, vs, Success);
    case Spoke(_) =>
      AfterOne(cfg.max, vs, Success);
      AfterTwo(cfg.max, vs, Success, Success);
    case AsrDied => AfterOne(cfg.max, vs, Failure(true));
    case _ => assert vs + [] == vs;
  }

  lemma {:induction false} BeforeIsAfter(cfg: Config, log: seq<Entry>)
    ensures Before(cfg, log) == After(cfg.max, VerdictsOf(log))
  {
    if log != [] {
      BeforeIsAfter(cfg, log[..|log| - 1]);
      OutcomeIsVerdicts(cfg, VerdictsOf(log[..|log| - 1]), log[|log| - 1]);
    }
  }

  /** The health depends only on those calls: consecutiveFailures is their streak, and
      the leg is degraded exactly if one of them trips it. */
  lemma HealthIsItsVerdicts(cfg: Config, log: seq<Entry>)
    ensures Before(cfg, log).fails == Streak(VerdictsOf(log))
    ensures Before(cfg, log).degraded <==>
            exists i :: 0 <= i < |VerdictsOf(log)| && Trips(cfg.max, VerdictsOf(log), i)
  {
    BeforeIsAfter(cfg, log);
    CountIsStreak(cfg.max, VerdictsOf(log));
    DegradedIffTripped(cfg.max, VerdictsOf(log));
  }

  // ----- The calls as they are made

  /** The health is the fold of the recordFailure and recordSuccess calls made so far. */
  ghost predicate Recorded(cfg: Config, l: Leg) {
    l.health == After(cfg.max, l.calls)
  }

  lemma RunRecords(cfg: Config, l: Leg, step: RunStep, closing: bool, cancelled: bool)
    requires RunEnabled(l, step, cancelled) && Recorded(cfg, l)
    ensures Recorded(cfg, RunApply(cfg, l, step, closing, cancelled))
  {
    AfterOne(cfg.max, l.calls, Failure(true));
  }

  lemma TalkRecords(cfg: Config, l: Leg, step: TalkStep, cancelled: bool)
    requires TalkEnabled(l, step, cancelled) && Recorded(cfg, l)
    ensures Recorded(cfg, TalkApply(cfg, l, step, cancelled))
  {
    match step
    case TranslateFails(fatal) => AfterOne(cfg.max, l.calls, Failure(fatal));
    case Translated(_) => AfterOne(cfg.max, l.calls, Success);
    case SynthFails(fatal) => AfterOne(cfg.max, l.calls, Failure(fatal));
    case FirstArrives => AfterOne(cfg.max, l.calls, Success);
    case Stall => AfterOne(cfg.max, l.calls, Failure(false));
    case _ =>
  }

  lemma TellRecords(cfg: Config, l: Leg, step: TellStep, cancelled: bool)
    requires TellEnabled(l, step, cancelled) && Recorded(cfg, l)
    ensures Recorded(cfg, TellApply(l, step, cancelled))
  {
    AfterOne(cfg.max, l.calls, Success);
  }

  lemma StepRecords(cfg: Config, l: Leg, step: Step, closing: bool, cancelled: bool)
    requires Enabled(l, step, cancelled) && Recorded(cfg, l)
    ensures Recorded(cfg, Apply(cfg, l, step, closing, cancelled))
  {
    match step
    case Env(_) =>
    case Run(run) => RunRecords(cfg, l, run, closing, cancelled);
    case Talk(talk) => TalkRecords(cfg, l, talk, cancelled);
    case Tell(tell) => TellRecords(cfg, l, tell, cancelled);
    case Dead(_) =>
  }

  // ----- Synthesizer failures do not accumulate

  predicate SynthTrouble(cause: Cause) {
    cause == Stalled || cause == SynthFailed(false)
  }

  /** No failure, or a non-fatal one of the synthesizer. */
  predicate SynthTroubleAtMost(cause: Cause) {
    SynthTrouble(cause) || cause.Spoke? || cause.Silent? || cause.LowConfidence? || cause.Degraded?
  }

  /** Utterances whose only failures are non-fatal ones of the synthesizer. */
  predicate OnlySynthTrouble(log: seq<Entry>) {
    forall i :: 0 <= i < |log| ==> SynthTroubleAtMost(log[i].e.cause)
  }

  /** Every utterance that reaches the synthesizer has had its translation counted as a
      success first: such failures degrade the leg exactly if the threshold is one. */
  lemma {:induction false} SynthTroubleAlone(cfg: Config, log: seq<Entry>)
    requires OnlySynthTrouble(log)
    ensures Before(cfg, log).fails <= 1
    ensures Before(cfg, log).degraded <==> cfg.max == 1 && exists i :: 0 <= i < |log| && SynthTrouble(log[i].e.cause)
  {
    if log != [] {
      var n := |log| - 1;
      var init := log[..n];
      SynthTroubleAlone(cfg, init);
      assert forall i :: 0 <= i < n ==> init[i] == log[i];
    }
  }

  /** Nor has the utterance in flight any other failure. */
  predicate OnlySynthTroubleSoFar(l: Leg) {
    && OnlySynthTrouble(l.log)
    && !l.runner.DrainingDead?
    && (l.runner.Sending? ==> SynthTroubleAtMost(l.runner.e.cause))
  }

  predicate HadSynthTrouble(l: Leg) {
    || (exists i :: 0 <= i < |l.log| && SynthTrouble(l.log[i].e.cause))
    || (l.runner.Sending? && SynthTrouble(l.runner.e.cause))
  }

  /** At any point, between utterances or within one, such a leg is degraded exactly if
      there has been such a failure and the threshold is one. */
  lemma SynthTroubleSoFar(cfg: Config, l: Leg)
    requires Tallied(cfg, l) && OnlySynthTroubleSoFar(l)
    ensures l.health.degraded <==> cfg.max == 1 && HadSynthTrouble(l)
  {
    SynthTroubleAlone(cfg, l.log);
  }
}
