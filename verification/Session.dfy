/** A whole session of pkg/langstream/session.go: both legs, whatever replacements they
    start, any number of concurrent Close calls, the wait group and the context. */
module Session {
  import opened Ring
  import Health
  import Leg
  import opened LegSpeech
  import opened LegAudio
  import opened LegHealth

  /** The caller's leg feeds agentOut and the agent's leg callerOut. */
  datatype Side = Caller | Agent

  datatype Closer =
    | NotCalled | SettingClosing | ClosingCallerAsr | ClosingAgentAsr | AwaitingLegs | AwaitingCancelled
    | Cancelling | ClosingAgentOut | ClosingCallerOut | Finished

  /** `legsDone` is the channel closed once the wait group reaches zero; `agentOut` and
      `callerOut` count how often those channels were closed. `cut` is history: the
      context was cancelled while a leg goroutine was still counted. */
  datatype Session = Session(
    caller: Leg.Leg, agent: Leg.Leg, closing: bool, cancelled: bool, wg: int, legsDone: bool,
    closer: Closer, agentOut: nat, callerOut: nat, calls: nat, returned: nat, cut: bool)

  const OPENED := Session(Leg.FRESH, Leg.FRESH, false, false, 2, false, NotCalled, 0, 0, 0, 0, false)

  datatype Step =
    | LegStep(side: Side, step: Leg.Step)
    | CancelOutside
    | CallClose | Return
    | SetClosing | CloseCallerAsr | CloseAgentAsr
    | WaitGroupZero | SeeDone | TimeOut | SeeDoneLate
    | CancelContext | CloseAgentOut | CloseCallerOut

  function LegOf(s: Session, side: Side): Leg.Leg {
    if side.Caller? then s.caller else s.agent
  }

  /** How often the channel a side writes to has been closed. */
  function Closes(s: Session, side: Side): nat {
    if side.Caller? then s.agentOut else s.callerOut
  }

  predicate Enabled(s: Session, step: Step) {
    match step
    case LegStep(side, leg) => Leg.Enabled(LegOf(s, side), leg, s.cancelled)
    case CancelOutside => true
    case CallClose => true
    case Return => s.closer.Finished? && s.returned < s.calls
    case SetClosing => s.closer.SettingClosing?
    case CloseCallerAsr => s.closer.ClosingCallerAsr?
    case CloseAgentAsr => s.closer.ClosingAgentAsr?
    case WaitGroupZero => (s.closer.AwaitingLegs? || s.closer.AwaitingCancelled?) && s.wg == 0
    case SeeDone => s.closer.AwaitingLegs? && s.legsDone
    case TimeOut => s.closer.AwaitingLegs?
    case SeeDoneLate => s.closer.AwaitingCancelled? && s.legsDone
    case CancelContext => s.closer.Cancelling?
    case CloseAgentOut => s.closer.ClosingAgentOut?
    case CloseCallerOut => s.closer.ClosingCallerOut?
  }

  function Cancel(s: Session): Session {
    s.(cancelled := true, cut := s.cut || s.wg > 0)
  }

  function WaitGroup(wg: int, step: Leg.Step): int {
    if step == Leg.Run(Leg.AddOne) then wg + 1
    else if step == Leg.Run(Leg.Exit) || step == Leg.Dead(Leg.ExitDead) then wg - 1
    else wg
  }

  function Apply(cfg: Leg.Config, s: Session, step: Step): Session
    requires Enabled(s, step)
  {
    match step
    case LegStep(side, leg) =>
      var l := Leg.Apply(cfg, LegOf(s, side), leg, s.closing, s.cancelled);
      var after := s.(wg := WaitGroup(s.wg, leg));
      if side.Caller? then after.(caller := l) else after.(agent := l)
    case CancelOutside => Cancel(s)
    case CallClose => s.(calls := s.calls + 1, closer := if s.closer.NotCalled? then SettingClosing else s.closer)
    case Return => s.(returned := s.returned + 1)
    case SetClosing => s.(closing := true, closer := ClosingCallerAsr)
    case CloseCallerAsr => s.(closer := ClosingAgentAsr)
    case CloseAgentAsr => s.(closer := AwaitingLegs)
    case WaitGroupZero => s.(legsDone := true)
    case SeeDone => s.(closer := Cancelling)
    case TimeOut => Cancel(s).(closer := AwaitingCancelled)
    case SeeDoneLate => s.(closer := Cancelling)
    case CancelContext => Cancel(s).(closer := ClosingAgentOut)
    case CloseAgentOut => s.(agentOut := s.agentOut + 1, closer := ClosingCallerOut)
    case CloseCallerOut => s.(callerOut := s.callerOut + 1, closer := Finished)
  }

  ghost predicate IsRun(cfg: Leg.Config, steps: seq<Step>, states: seq<Session>) {
    && |states| == |steps| + 1
    && states[0] == OPENED
    && forall i :: 0 <= i < |steps| ==> Enabled(states[i], steps[i]) && states[i + 1] == Apply(cfg, states[i], steps[i])
  }

  // ----- The invariant

  /** The wait group counts exactly the leg goroutines alive, and Close is past its wait
      only once there are none. */
  predicate Counted(s: Session) {
    && s.wg == Leg.Alive(s.caller) + Leg.Alive(s.agent)
    && (s.legsDone ==> s.wg == 0)
    && (s.closer in {Cancelling, ClosingAgentOut, ClosingCallerOut, Finished} ==> s.legsDone)
    && s.agentOut == (if s.closer in {ClosingCallerOut, Finished} then 1 else 0)
    && s.callerOut == (if s.closer.Finished? then 1 else 0)
    && (s.closer in {ClosingAgentOut, ClosingCallerOut, Finished} ==> s.cancelled)
    && (s.calls > 0 <==> !s.closer.NotCalled?)
    && s.returned <= s.calls && (s.returned > 0 ==> s.closer.Finished?)
    && (s.cut ==> s.cancelled) && (s.cancelled && s.wg > 0 ==> s.cut)
  }

  ghost predicate LegSound(cfg: Leg.Config, l: Leg.Leg, cut: bool) {
    Orderly(cfg, l, cut) && Placed(cfg, l) && Healthy(cfg, l) && Recorded(cfg, l)
  }

  ghost predicate Sound(cfg: Leg.Config, s: Session) {
    Counted(s) && LegSound(cfg, s.caller, s.cut) && LegSound(cfg, s.agent, s.cut)
  }

  lemma RunCounts(cfg: Leg.Config, l: Leg.Leg, step: Leg.RunStep, closing: bool, cancelled: bool)
    requires Roles(l) && Leg.RunEnabled(l, step, cancelled)
    ensures Leg.Alive(l) > 0
    ensures Leg.Alive(Leg.RunApply(cfg, l, step, closing, cancelled)) == WaitGroup(Leg.Alive(l), Leg.Run(step))
  {
  }

  lemma TalkCounts(cfg: Leg.Config, l: Leg.Leg, step: Leg.TalkStep, cancelled: bool)
    requires Leg.TalkEnabled(l, step, cancelled)
    ensures Leg.Alive(l) > 0
    ensures Leg.Alive(Leg.TalkApply(cfg, l, step, cancelled)) == Leg.Alive(l)
  {
  }

  lemma TellCounts(l: Leg.Leg, step: Leg.TellStep, cancelled: bool)
    requires Leg.TellEnabled(l, step, cancelled)
    ensures Leg.Alive(l) > 0 && Leg.Alive(Leg.TellApply(l, step, cancelled)) == Leg.Alive(l)
  {
  }

  lemma DeadCounts(cfg: Leg.Config, l: Leg.Leg, step: Leg.DeadStep, closing: bool, cancelled: bool)
    requires Leg.DeadEnabled(l, step, cancelled)
    ensures Leg.Alive(l) > 0
    ensures Leg.Alive(Leg.DeadApply(cfg, l, step, closing, cancelled)) == WaitGroup(Leg.Alive(l), Leg.Dead(step))
  {
  }

  /** What the wait group counts moves exactly with its Add and Done, and only a counted
      goroutine takes a step. */
  lemma StepCounts(cfg: Leg.Config, l: Leg.Leg, step: Leg.Step, closing: bool, cancelled: bool)
    requires Roles(l) && Leg.Enabled(l, step, cancelled)
    ensures !step.Env? ==> Leg.Alive(l) > 0
    ensures Leg.Alive(Leg.Apply(cfg, l, step, closing, cancelled)) == WaitGroup(Leg.Alive(l), step)
  {
    match step
    case Env(_) =>
    case Run(run) => RunCounts(cfg, l, run, closing, cancelled);
    case Talk(talk) => TalkCounts(cfg, l, talk, cancelled);
    case Tell(tell) => TellCounts(l, tell, cancelled);
    case Dead(dead) => DeadCounts(cfg, l, dead, closing, cancelled);
  }

  lemma LegStepCounted(cfg: Leg.Config, s: Session, side: Side, step: Leg.Step)
    requires Counted(s) && Roles(LegOf(s, side)) && Enabled(s, LegStep(side, step))
    ensures Counted(Apply(cfg, s, LegStep(side, step)))
    ensures !step.Env? ==> s.wg > 0
  {
    StepCounts(cfg, LegOf(s, side), step, s.closing, s.cancelled);
  }

  lemma CloseStepCounted(cfg: Leg.Config, s: Session, step: Step)
    requires Counted(s) && !step.LegStep? && Enabled(s, step)
    ensures var s' := Apply(cfg, s, step);
            Counted(s') && s'.caller == s.caller && s'.agent == s.agent && (s.cut ==> s'.cut)
  {
  }

  /** An environment step is the same with and without cancellation; any other one is
      taken by a live goroutine, for which cancelled and cut agree. */
  lemma LegStepSound(cfg: Leg.Config, l: Leg.Leg, step: Leg.Step, closing: bool, cancelled: bool, cut: bool)
    requires cfg.cap > 0 && LegSound(cfg, l, cut) && Leg.Enabled(l, step, cancelled)
    requires step.Env? || cut == cancelled
    ensures LegSound(cfg, Leg.Apply(cfg, l, step, closing, cancelled), cut)
  {
    StepOrderly(cfg, l, step, closing, cut);
    StepPlaced(cfg, l, step, closing, cancelled);
    StepHealthy(cfg, l, step, closing, cancelled);
    StepRecords(cfg, l, step, closing, cancelled);
  }

  lemma CutLater(cfg: Leg.Config, l: Leg.Leg)
    requires LegSound(cfg, l, false)
    ensures LegSound(cfg, l, true)
  {
  }

  lemma GoroutineStepSound(cfg: Leg.Config, s: Session, side: Side, step: Leg.Step)
    requires cfg.cap > 0 && Sound(cfg, s) && Enabled(s, LegStep(side, step))
    ensures Sound(cfg, Apply(cfg, s, LegStep(side, step)))
  {
    LegStepCounted(cfg, s, side, step);
    LegStepSound(cfg, LegOf(s, side), step, s.closing, s.cancelled, s.cut);
  }

  lemma CloseStepSound(cfg: Leg.Config, s: Session, step: Step)
    requires Sound(cfg, s) && !step.LegStep? && Enabled(s, step)
    ensures Sound(cfg, Apply(cfg, s, step))
  {
    CloseStepCounted(cfg, s, step);
    if !s.cut {
      CutLater(cfg, s.caller);
      CutLater(cfg, s.agent);
    }
  }

  lemma StepSound(cfg: Leg.Config, s: Session, step: Step)
    requires cfg.cap > 0 && Sound(cfg, s) && Enabled(s, step)
    ensures Sound(cfg, Apply(cfg, s, step))
  {
    if step.LegStep? {
      GoroutineStepSound(cfg, s, step.side, step.step);
    } else {
      CloseStepSound(cfg, s, step);
    }
  }

  lemma FreshIsSound(cfg: Leg.Config)
    ensures LegSound(cfg, Leg.FRESH, false)
  {
  }

  /** Every state of every run, over all interleavings. */
  lemma {:induction false} RunsAreSound(cfg: Leg.Config, steps: seq<Step>, states: seq<Session>, n: nat)
    requires cfg.cap > 0 && IsRun(cfg, steps, states) && n < |states|
    ensures Sound(cfg, states[n])
  {
    if n == 0 {
      FreshIsSound(cfg);
    } else {
      RunsAreSound(cfg, steps, states, n - 1);
      StepSound(cfg, states[n - 1], steps[n - 1]);
    }
  }

  // ----- Results about every run

  /** Nothing is sent on an outbound channel once it is closed, and neither channel is
      closed twice. */
  lemma NothingSentAfterClose(cfg: Leg.Config, steps: seq<Step>, states: seq<Session>, n: nat, side: Side)
    requires cfg.cap > 0 && IsRun(cfg, steps, states) && n < |states|
    ensures Closes(states[n], side) <= 1
    ensures n < |steps| && steps[n].LegStep? && steps[n].side == side && Leg.Sends(steps[n].step) ==> Closes(states[n], side) == 0
  {
    RunsAreSound(cfg, steps, states, n);
    if n < |steps| && steps[n].LegStep? && steps[n].side == side && Leg.Sends(steps[n].step) {
      LegStepCounted(cfg, states[n], side, steps[n].step);
    }
  }

  lemma ReturnedMeansGone(cfg: Leg.Config, s: Session)
    requires Counted(s) && s.returned > 0
    ensures Leg.Alive(s.caller) == 0 && Leg.Alive(s.agent) == 0 && s.agentOut == 1 && s.callerOut == 1 && s.cancelled
  {
  }

  lemma OnlyGoroutinesStep(cfg: Leg.Config, s: Session, step: Step)
    requires Sound(cfg, s) && Enabled(s, step) && step.LegStep? && s.wg == 0
    ensures step.step.Env?
  {
    LegStepCounted(cfg, s, step.side, step.step);
  }

  /** Once any Close call has returned, no leg goroutine is alive and both channels have
      been closed, once each. */
  lemma CloseReturnsAfterAll(cfg: Leg.Config, steps: seq<Step>, states: seq<Session>, n: nat)
    requires cfg.cap > 0 && IsRun(cfg, steps, states) && n < |states| && states[n].returned > 0
    ensures Leg.Alive(states[n].caller) == 0 && Leg.Alive(states[n].agent) == 0
    ensures states[n].agentOut == 1 && states[n].callerOut == 1 && states[n].cancelled
    ensures n < |steps| && steps[n].LegStep? ==> steps[n].step.Env?
  {
    RunsAreSound(cfg, steps, states, n);
    ReturnedMeansGone(cfg, states[n]);
    if n < |steps| && steps[n].LegStep? {
      OnlyGoroutinesStep(cfg, states[n], steps[n]);
    }
  }

  /** A leg whose goroutines ran to their end without cancellation has answered everything. */
  lemma GoneHasAnswered(cfg: Leg.Config, l: Leg.Leg)
    requires Orderly(cfg, l, false) && Leg.Alive(l) == 0
    ensures l.asrClosed && HeardIn(l.log) == Finals(l.arrived) && l.out == SentOf(l.log)
    ensures forall i :: 0 <= i < |l.log| ==>
              !l.log[i].aborted && l.log[i].e.sent == Leg.Plan(cfg, l.log[i].e.cause, l.log[i].e.batch)
  {
  }

  lemma ClosedMeansGone(s: Session, side: Side)
    requires Counted(s) && Closes(s, side) > 0
    ensures Leg.Alive(LegOf(s, side)) == 0
  {
  }

  /** Unless the context was cancelled while a leg was alive: when its outbound channel
      is closed, every final transcript its recognizer ever produced has had its one
      outcome, in order of arrival and each of its own, and what went out is exactly what
      those outcomes planned: passthrough of the utterance's audio, its synthesized stream, or nothing. */
  lemma EveryFinalHandledBeforeClose(cfg: Leg.Config, steps: seq<Step>, states: seq<Session>, n: nat, side: Side)
    requires cfg.cap > 0 && IsRun(cfg, steps, states) && n < |states|
    requires Closes(states[n], side) > 0 && !states[n].cut
    ensures var l := LegOf(states[n], side);
            && l.asrClosed && HeardIn(l.log) == Finals(l.arrived)
            && l.out == SentOf(l.log) && EachAnswersOne(l.log)
            && forall i :: 0 <= i < |l.log| ==> !l.log[i].aborted && l.log[i].e.sent == Leg.Plan(cfg, l.log[i].e.cause, l.log[i].e.batch)
  {
    RunsAreSound(cfg, steps, states, n);
    ClosedMeansGone(states[n], side);
    GoneHasAnswered(cfg, LegOf(states[n], side));
  }

  /** In every state: the frames pushed are, in order, those dropped or drained so far and
      those in the ring; each utterance ended holds the batch of its own drain, the last
      frames pushed before it; and no two share a drain. */
  lemma EveryFrameAccounted(cfg: Leg.Config, steps: seq<Step>, states: seq<Session>, n: nat, side: Side)
    requires cfg.cap > 0 && IsRun(cfg, steps, states) && n < |states|
    ensures var l := LegOf(states[n], side);
            && l.pushed == CutFrames(l.ring.cuts) + l.ring.dropped + l.ring.frames
            && (forall i :: 0 <= i < |l.log| ==> HoldsItsDrain(cfg, l, i))
            && (forall i, j :: 0 <= j < i < |l.log| ==> l.log[j].e.cut < l.log[i].e.cut)
  {
    RunsAreSound(cfg, steps, states, n);
    FramesAccounted(cfg, LegOf(states[n], side));
  }

  ghost predicate HoldsItsDrain(cfg: Leg.Config, l: Leg.Leg, i: nat)
    requires i < |l.log|
  {
    var (cut, batch) := (l.log[i].e.cut, l.log[i].e.batch);
    cut < |l.ring.cuts| && batch == l.ring.cuts[cut].batch && batch == LastN(l.ring.cuts[cut].dropped + batch, cfg.cap)
  }

  lemma EntryMark(l: Leg.Leg, i: nat)
    requires i < |l.log|
    ensures i < |Marks(l)| && Marks(l)[i] == Mark(l.log[i].e.cut, l.log[i].e.batch)
  {
  }

  lemma EntryHoldsItsDrain(cfg: Leg.Config, l: Leg.Leg, i: nat)
    requires Placed(cfg, l) && i < |l.log|
    ensures HoldsItsDrain(cfg, l, i)
  {
    EntryMark(l, i);
  }

  lemma EntriesInOrder(cfg: Leg.Config, l: Leg.Leg, i: nat, j: nat)
    requires Placed(cfg, l) && j < i < |l.log|
    ensures l.log[j].e.cut < l.log[i].e.cut
  {
    EntryMark(l, i);
    EntryMark(l, j);
  }

  lemma FramesAccounted(cfg: Leg.Config, l: Leg.Leg)
    requires Placed(cfg, l)
    ensures forall i :: 0 <= i < |l.log| ==> HoldsItsDrain(cfg, l, i)
    ensures forall i, j :: 0 <= j < i < |l.log| ==> l.log[j].e.cut < l.log[i].e.cut
  {
    forall i | 0 <= i < |l.log|
      ensures HoldsItsDrain(cfg, l, i)
    {
      EntryHoldsItsDrain(cfg, l, i);
    }
    forall i, j | 0 <= j < i < |l.log|
      ensures l.log[j].e.cut < l.log[i].e.cut
    {
      EntriesInOrder(cfg, l, i, j);
    }
  }

  lemma StaysDegraded(cfg: Leg.Config, s: Session, step: Step, side: Side)
    requires Sound(cfg, s) && Enabled(s, step) && LegOf(s, side).health.degraded
    ensures LegOf(Apply(cfg, s, step), side).health.degraded
  {
    if step.LegStep? && step.side == side {
      StepHealthy(cfg, LegOf(s, side), step.step, s.closing, s.cancelled);
    }
  }

  lemma NextStaysDegraded(cfg: Leg.Config, steps: seq<Step>, states: seq<Session>, k: nat, side: Side)
    requires cfg.cap > 0 && IsRun(cfg, steps, states) && k + 1 < |states| && LegOf(states[k], side).health.degraded
    ensures LegOf(states[k + 1], side).health.degraded
  {
    RunsAreSound(cfg, steps, states, k);
    StaysDegraded(cfg, states[k], steps[k], side);
  }

  lemma {:induction false} DegradedForGood(cfg: Leg.Config, steps: seq<Step>, states: seq<Session>, m: nat, n: nat, side: Side)
    requires cfg.cap > 0 && IsRun(cfg, steps, states) && m <= n < |states| && LegOf(states[m], side).health.degraded
    ensures LegOf(states[n], side).health.degraded
  {
    if m < n {
      DegradedForGood(cfg, steps, states, m, n - 1, side);
      NextStaysDegraded(cfg, steps, states, n - 1, side);
    }
  }

  /** Degradation never reverts, and from then on nothing is translated or synthesized. */
  lemma NothingStartsAfterDegradation(cfg: Leg.Config, steps: seq<Step>, states: seq<Session>, m: nat, n: nat, side: Side)
    requires cfg.cap > 0 && IsRun(cfg, steps, states) && m <= n < |states| && LegOf(states[m], side).health.degraded
    ensures var l := LegOf(states[n], side);
            l.health.degraded && !l.runner.Translating? && !l.runner.Synthesizing? && !l.runner.FirstChunk?
  {
    DegradedForGood(cfg, steps, states, m, n, side);
    RunsAreSound(cfg, steps, states, n);
    DegradedLegIsIdle(cfg, LegOf(states[n], side));
  }

  /** In every state a leg whose only failures so far were non-fatal ones of the
      synthesizer is degraded exactly if there was one and the threshold is one: with any
      other threshold such a run never degrades. */
  lemma SynthTroubleNeverAddsUp(cfg: Leg.Config, steps: seq<Step>, states: seq<Session>, n: nat, side: Side)
    requires cfg.cap > 0 && IsRun(cfg, steps, states) && n < |states| && OnlySynthTroubleSoFar(LegOf(states[n], side))
    ensures var l := LegOf(states[n], side); l.health.degraded <==> cfg.max == 1 && HadSynthTrouble(l)
  {
    RunsAreSound(cfg, steps, states, n);
    SynthTroubleSoFar(cfg, LegOf(states[n], side));
  }

  /** In every state the failure count is the number of non-fatal failures recorded since
      the last success recorded, and the leg is degraded exactly if one of the calls was
      fatal or brought that number to the threshold. */
  lemma HealthIsTheStreak(cfg: Leg.Config, steps: seq<Step>, states: seq<Session>, n: nat, side: Side)
    requires cfg.cap > 0 && IsRun(cfg, steps, states) && n < |states|
    ensures var l := LegOf(states[n], side);
            && l.health.fails == Health.Streak(l.calls)
            && (l.health.degraded <==> exists i :: 0 <= i < |l.calls| && Health.Trips(cfg.max, l.calls, i))
  {
    RunsAreSound(cfg, steps, states, n);
    var calls := LegOf(states[n], side).calls;
    Health.CountIsStreak(cfg.max, calls);
    Health.DegradedIffTripped(cfg.max, calls);
  }

  /** Over any run a leg's degradation is reported by exactly one of its recordFailure
      calls, the first that trips it, if it is degraded, and by none if it is not. */
  lemma DegradationReportedOnce(cfg: Leg.Config, steps: seq<Step>, states: seq<Session>, n: nat, side: Side)
    requires cfg.cap > 0 && IsRun(cfg, steps, states) && n < |states|
    ensures var l := LegOf(states[n], side);
            l.health.degraded <==> exists i :: 0 <= i < |l.calls| && Health.Reports(cfg.max, l.calls, i)
    ensures var calls := LegOf(states[n], side).calls;
            forall i, j :: 0 <= i < j < |calls| ==> !(Health.Reports(cfg.max, calls, i) && Health.Reports(cfg.max, calls, j))
  {
    RunsAreSound(cfg, steps, states, n);
    Health.ReportedOnce(cfg.max, LegOf(states[n], side).calls);
  }

  // ----- A leg whose recognizer died

  /** The leg has been found dead: its replacement is running, or on its way. */
  predicate Died(l: Leg.Leg) {
    l.runner.Dying? || Replacing(l)
  }

  predicate Replacing(l: Leg.Leg) {
    || l.runner.DrainingDead? || l.runner.Adding? || l.runner.Starting?
    || (l.runner.Sending? && l.runner.e.cause.AsrDied?) || !l.drainer.Off?
  }

  lemma RunDies(cfg: Leg.Config, l: Leg.Leg, step: Leg.RunStep, closing: bool, cancelled: bool)
    requires Leg.RunEnabled(l, step, cancelled)
    ensures var l' := Leg.RunApply(cfg, l, step, closing, cancelled);
            && (Died(l') ==> Died(l) || (step.LoadClosing? && !closing))
            && (Replacing(l') ==> Replacing(l) || (step.MarkDead? && l'.health.degraded))
  {
  }

  lemma TalkDies(cfg: Leg.Config, l: Leg.Leg, step: Leg.TalkStep, cancelled: bool)
    requires Leg.TalkEnabled(l, step, cancelled)
    ensures var l' := Leg.TalkApply(cfg, l, step, cancelled);
            (Died(l') ==> Died(l)) && (Replacing(l') ==> Replacing(l))
  {
  }

  lemma StepDies(cfg: Leg.Config, l: Leg.Leg, step: Leg.Step, closing: bool, cancelled: bool)
    requires Leg.Enabled(l, step, cancelled)
    ensures var l' := Leg.Apply(cfg, l, step, closing, cancelled);
            && (Died(l') ==> Died(l) || (step == Leg.Run(Leg.LoadClosing) && !closing))
            && (Replacing(l') ==> Replacing(l) || l'.health.degraded)
  {
    match step
    case Env(_) =>
    case Run(run) => RunDies(cfg, l, run, closing, cancelled);
    case Talk(talk) => TalkDies(cfg, l, talk, cancelled);
    case Tell(_) =>
    case Dead(_) =>
  }

  /** The step of a run after which a leg is dead, or being replaced, and was not before. */
  lemma NextDies(cfg: Leg.Config, steps: seq<Step>, states: seq<Session>, k: nat, side: Side)
    requires IsRun(cfg, steps, states) && k < |steps|
    ensures Died(LegOf(states[k + 1], side)) ==>
              Died(LegOf(states[k], side)) || (steps[k] == LegStep(side, Leg.Run(Leg.LoadClosing)) && !states[k].closing)
    ensures Replacing(LegOf(states[k + 1], side)) ==> Replacing(LegOf(states[k], side)) || LegOf(states[k + 1], side).health.degraded
  {
    var (s, step) := (states[k], steps[k]);
    if step.LegStep? && step.side == side {
      StepDies(cfg, LegOf(s, side), step.step, s.closing, s.cancelled);
    }
  }

  /** What was false at first and is true at n became true at some step before. */
  lemma {:induction false} BecameTrue(flags: seq<bool>, n: nat) returns (j: nat)
    requires n < |flags| && !flags[0] && flags[n]
    ensures j < n && !flags[j] && flags[j + 1]
  {
    if flags[n - 1] {
      j := BecameTrue(flags, n - 1);
    } else {
      j := n - 1;
    }
  }

  /** A leg is handed to a replacement only if its transcripts ended on their own: when
      the end was noticed, Close had not begun. */
  lemma ReplacedOnlyIfDiedUnprompted(cfg: Leg.Config, steps: seq<Step>, states: seq<Session>, n: nat, side: Side)
    requires IsRun(cfg, steps, states) && n < |states| && Died(LegOf(states[n], side))
    ensures exists j :: 0 <= j < n && steps[j] == LegStep(side, Leg.Run(Leg.LoadClosing)) && !states[j].closing
  {
    var dead := seq(|states|, k requires 0 <= k < |states| => Died(LegOf(states[k], side)));
    var j := BecameTrue(dead, n);
    NextDies(cfg, steps, states, j, side);
  }

  /** A leg that is being replaced is degraded, and stays so. */
  lemma ReplacedLegIsDegraded(cfg: Leg.Config, steps: seq<Step>, states: seq<Session>, n: nat, side: Side)
    requires cfg.cap > 0 && IsRun(cfg, steps, states) && n < |states| && Replacing(LegOf(states[n], side))
    ensures LegOf(states[n], side).health.degraded
  {
    var replaced := seq(|states|, k requires 0 <= k < |states| => Replacing(LegOf(states[k], side)));
    var j := BecameTrue(replaced, n);
    NextDies(cfg, steps, states, j, side);
    DegradedForGood(cfg, steps, states, j + 1, n, side);
  }
}
