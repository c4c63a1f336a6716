/** What holds over every run of a Deepgram session. */
module AsrRuns {
  import opened AsrSession

  ghost predicate IsRun(max: int, steps: seq<Step>, states: seq<Session>) {
    && |states| == |steps| + 1
    && states[0] == OPENED
    && forall i :: 0 <= i < |steps| ==> Enabled(states[i], steps[i]) && states[i + 1] == Apply(max, states[i], steps[i])
  }

  // ----- (1) The breaker hears exactly once

  predicate Reporting(thread: Thread) {
    thread.ReportSuccess? || thread.ReportEnd?
  }

  /** Teardown past settleBreaker's lock section. */
  predicate PastSettle(thread: Thread) {
    thread.ReportEnd? || thread.Cancel? || thread.AwaitWorkers? || thread.AwaitSends? || thread.CloseOut?
  }

  ghost predicate ToldOnce(threads: seq<Thread>, reports: seq<Report>, reporter: int, settled: bool, once: bool, outClosed: nat) {
    && |reports| <= 1
    && (reports != [] ==> settled && (reports[0] == Success <==> once))
    && (once ==> settled)
    && (forall t :: 0 <= t < |threads| && Reporting(threads[t]) ==>
          && reporter == t && reports == [] && settled
          && (threads[t].ReportSuccess? <==> once)
          && (threads[t].ReportEnd? ==> threads[t].report != Success))
    && (settled && reports == [] ==> 0 <= reporter < |threads| && Reporting(threads[reporter]))
    && (forall t :: 0 <= t < |threads| && PastSettle(threads[t]) ==> settled)
    && (outClosed > 0 ==> settled)
  }

  ghost predicate Told(s: Session) {
    ToldOnce(s.threads, s.reports, s.reporter, s.breakerSettled, s.connectedOnce, s.outClosed)
  }

  lemma GotoTold(s: Session, t: nat, next: Thread)
    requires Told(s) && t < |s.threads| && !Reporting(s.threads[t]) && !Reporting(next)
    requires PastSettle(next) ==> s.breakerSettled
    ensures Told(Goto(s, t, next))
  {
  }

  lemma SpawnTold(s: Session, more: seq<Thread>)
    requires Told(s) && forall i :: 0 <= i < |more| ==> !Reporting(more[i]) && (PastSettle(more[i]) ==> s.breakerSettled)
    ensures Told(s.(threads := s.threads + more))
  {
  }

  lemma ReportTold(s: Session, t: nat, next: Thread, report: Report)
    requires Told(s) && t < |s.threads| && Reporting(s.threads[t]) && !Reporting(next)
    requires report == if s.threads[t].ReportSuccess? then Success else s.threads[t].report
    ensures Told(Goto(s.(reports := s.reports + [report]), t, next))
  {
  }

  lemma CloseOutTold(s: Session, t: nat)
    requires Told(s) && t < |s.threads| && s.threads[t].CloseOut?
    ensures Told(Goto(s.(outClosed := s.outClosed + 1), t, Finished))
  {
  }

  lemma SettleSectionTold(s: Session, t: nat, error: Error, how: Teardown)
    requires Told(s) && t < |s.threads| && s.threads[t] == Settle(error, how)
    ensures Told(SettleSection(s, t, error, how))
  {
  }

  lemma CancelSectionTold(s: Session, t: nat, how: Teardown)
    requires Told(s) && t < |s.threads| && s.threads[t] == Cancel(how)
    ensures Told(CancelSection(s, t, how))
  {
  }

  lemma InstallTold(s: Session, t: nat, retry: bool)
    requires Told(s) && t < |s.threads| && s.threads[t] == Install(retry)
    ensures Told(InstallSection(s, t, retry))
  {
  }

  lemma ConnectTold(s: Session, t: nat)
    requires Told(s) && t < |s.threads| && IsConnect(s.threads[t])
    ensures Told(ConnectSection(s, t))
  {
    match s.threads[t]
    case Install(retry) => InstallTold(s, t, retry);
    case ReportSuccess(retry, gen) => ReportTold(s, t, Spawn(retry, gen), Success);
    case Spawn(retry, gen) =>
      GotoTold(s, t, Ensured(retry));
      SpawnTold(Goto(s, t, Ensured(retry)), [Reading(gen), KeepAlive]);
  }

  lemma CloseSectionTold(s: Session, t: nat, error: Error, how: Teardown)
    requires Told(s) && t < |s.threads| && (s.threads[t].Fail? || s.threads[t].Close?)
    ensures Told(CloseSection(s, t, error, how))
  {
  }

  lemma TeardownTold(s: Session, t: nat)
    requires Told(s) && t < |s.threads| && IsTeardown(s.threads[t])
    ensures Told(TeardownSection(s, t))
  {
    match s.threads[t]
    case Fail(error, resume) => CloseSectionTold(s, t, error, ByFail(resume));
    case Close => CloseSectionTold(s, t, None, ByClose);
    case Settle(error, how) => SettleSectionTold(s, t, error, how);
    case ReportEnd(report, how) => ReportTold(s, t, Cancel(how), report);
    case Cancel(how) => CancelSectionTold(s, t, how);
    case AwaitWorkers => GotoTold(s, t, AwaitSends);
    case AwaitSends => GotoTold(s, t, CloseOut);
    case CloseOut => CloseOutTold(s, t);
  }

  /** A push or a worker changes only its own place and nothing the breaker hears. */
  ghost predicate Private(s: Session, s': Session, t: nat) {
    && t < |s.threads| == |s'.threads| && s'.threads == s.threads[t := s'.threads[t]]
    && !Reporting(s.threads[t]) && !Reporting(s'.threads[t]) && !PastSettle(s'.threads[t])
    && s'.reports == s.reports && s'.reporter == s.reporter && s'.breakerSettled == s.breakerSettled
    && s'.connectedOnce == s.connectedOnce && s'.outClosed == s.outClosed
    && s'.closed == s.closed && s'.owner == s.owner && !s'.threads[t].Settle?
  }

  lemma EnsureIsPrivate(max: int, s: Session, t: nat, retry: bool)
    requires t < |s.threads| && s.threads[t] == Ensure(retry)
    ensures Private(s, EnsureSection(max, s, t, retry), t)
  {
  }

  lemma DialIsPrivate(max: int, s: Session, t: nat, answer: Answer)
    requires t < |s.threads| && (s.threads[t].Dial? || s.threads[t].DialFailed? || s.threads[t].Backoff?)
    ensures Private(s, PushSection(max, s, t, answer), t)
  {
  }

  lemma PushIsPrivate(max: int, s: Session, t: nat, answer: Answer)
    requires t < |s.threads| && IsPush(s.threads[t])
    ensures Private(s, PushSection(max, s, t, answer), t)
  {
    if s.threads[t].Ensure? {
      EnsureIsPrivate(max, s, t, s.threads[t].retry);
    } else if s.threads[t].Dial? || s.threads[t].DialFailed? || s.threads[t].Backoff? {
      DialIsPrivate(max, s, t, answer);
    }
  }

  lemma ReadIsPrivate(s: Session, t: nat, gen: nat, answer: Answer)
    requires t < |s.threads| && s.threads[t] == Reading(gen)
    ensures Private(s, ReadSection(s, t, gen, answer), t)
    ensures ReadSection(s, t, gen, answer).sendWG == s.sendWG && !ReadSection(s, t, gen, answer).threads[t].Sending?
  {
  }

  lemma SendIsPrivate(s: Session, t: nat, answer: Answer)
    requires t < |s.threads| && (s.threads[t].Accept? || s.threads[t].Sending?)
    ensures Private(s, WorkerSection(s, t, answer), t)
  {
  }

  lemma WorkerIsPrivate(s: Session, t: nat, answer: Answer)
    requires t < |s.threads| && IsWorker(s.threads[t])
    ensures Private(s, WorkerSection(s, t, answer), t)
  {
    if s.threads[t].Reading? {
      ReadIsPrivate(s, t, s.threads[t].gen, answer);
    } else if s.threads[t].Accept? || s.threads[t].Sending? {
      SendIsPrivate(s, t, answer);
    }
  }

  lemma SectionTold(max: int, s: Session, t: nat, answer: Answer)
    requires Told(s) && t < |s.threads|
    ensures Told(Section(max, s, t, answer))
  {
    if IsPush(s.threads[t]) {
      PushIsPrivate(max, s, t, answer);
      GotoTold(s, t, PushSection(max, s, t, answer).threads[t]);
    } else if IsConnect(s.threads[t]) {
      ConnectTold(s, t);
    } else if IsTeardown(s.threads[t]) {
      TeardownTold(s, t);
    } else if IsWorker(s.threads[t]) {
      WorkerIsPrivate(s, t, answer);
      GotoTold(s, t, WorkerSection(s, t, answer).threads[t]);
    }
  }

  lemma StepTold(max: int, s: Session, step: Step)
    requires Told(s) && Enabled(s, step)
    ensures Told(Apply(max, s, step))
  {
    match step
    case CallPush => SpawnTold(s, [Push]);
    case CallClose => SpawnTold(s, [Close]);
    case CancelOutside =>
    case Move(t, answer) => SectionTold(max, s, t, answer);
  }

  // ----- (2) The transcript channel is closed once, when no send is under way

  predicate Tearing(thread: Thread) {
    thread.Settle? || PastSettle(thread)
  }

  function SendsUnderWay(threads: seq<Thread>): nat {
    if threads == [] then 0
    else SendsUnderWay(threads[..|threads| - 1]) + (if threads[|threads| - 1].Sending? then 1 else 0)
  }

  lemma {:induction false} UpdateCounts(threads: seq<Thread>, t: nat, next: Thread)
    requires t < |threads|
    ensures SendsUnderWay(threads[t := next]) ==
            SendsUnderWay(threads) - (if threads[t].Sending? then 1 else 0) + (if next.Sending? then 1 else 0)
  {
    var n := |threads| - 1;
    if t < n {
      UpdateCounts(threads[..n], t, next);
      assert threads[t := next][..n] == threads[..n][t := next];
    } else {
      assert threads[t := next][..n] == threads[..n];
    }
  }

  ghost predicate Guarded(threads: seq<Thread>, owner: int, closed: bool, outClosed: nat, sendWG: int) {
    && (forall t :: 0 <= t < |threads| && Tearing(threads[t]) ==> owner == t && closed && outClosed == 0)
    && outClosed <= 1 && (outClosed > 0 ==> closed && sendWG == 0)
    && owner < |threads|
    && sendWG == SendsUnderWay(threads)
    && (forall t :: 0 <= t < |threads| && threads[t].CloseOut? ==> sendWG == 0)
  }

  ghost predicate Safe(s: Session) {
    Guarded(s.threads, s.owner, s.closed, s.outClosed, s.sendWG)
  }

  lemma GotoSafe(s: Session, t: nat, next: Thread)
    requires Safe(s) && t < |s.threads| && (Tearing(next) ==> Tearing(s.threads[t]))
    requires (next.CloseOut? ==> s.sendWG == 0) && s.threads[t].Sending? == next.Sending?
    ensures Safe(Goto(s, t, next))
  {
    UpdateCounts(s.threads, t, next);
  }

  lemma JoinSafe(s: Session, thread: Thread)
    requires Safe(s) && !thread.Sending? && !Tearing(thread)
    ensures Safe(s.(threads := s.threads + [thread]))
  {
  }

  lemma CloseSectionSafe(s: Session, t: nat, error: Error, how: Teardown)
    requires Safe(s) && t < |s.threads| && (s.threads[t].Fail? || s.threads[t].Close?)
    ensures Safe(CloseSection(s, t, error, how))
  {
    UpdateCounts(s.threads, t, CloseSection(s, t, error, how).threads[t]);
    if !s.closed {
      assert forall u :: 0 <= u < |s.threads| ==> !Tearing(s.threads[u]);
    }
  }

  lemma WaiterSafe(s: Session)
    requires Safe(s) && s.closed && s.outClosed == 0 && forall u :: 0 <= u < |s.threads| ==> !Tearing(s.threads[u])
    ensures Safe(s.(threads := s.threads + [AwaitWorkers], owner := |s.threads|))
  {
  }

  /** The owner alone tears down: when it lets go, nobody does. */
  lemma LetGoSafe(s: Session, t: nat, next: Thread)
    requires Safe(s) && t < |s.threads| && s.threads[t].Cancel? && !Tearing(next) && !next.Sending?
    ensures var s' := Goto(s, t, next);
            Safe(s') && s'.closed && s'.outClosed == 0 && forall u :: 0 <= u < |s'.threads| ==> !Tearing(s'.threads[u])
  {
    GotoSafe(s, t, next);
  }

  lemma CancelSectionSafe(s: Session, t: nat, how: Teardown)
    requires Safe(s) && t < |s.threads| && s.threads[t] == Cancel(how)
    ensures Safe(CancelSection(s, t, how))
  {
    match how
    case ByClose => GotoSafe(s, t, AwaitWorkers);
    case ByFail(resume) =>
      var next := if resume.Read? then Reading(resume.gen) else Finished;
      LetGoSafe(s, t, next);
      WaiterSafe(Goto(s, t, next));
  }

  lemma CloseOutSafe(s: Session, t: nat)
    requires Safe(s) && t < |s.threads| && s.threads[t].CloseOut?
    ensures Safe(Goto(s.(outClosed := s.outClosed + 1), t, Finished))
  {
    UpdateCounts(s.threads, t, Finished);
  }

  lemma TeardownSafe(s: Session, t: nat)
    requires Safe(s) && t < |s.threads| && IsTeardown(s.threads[t]) && (s.threads[t].AwaitSends? ==> s.sendWG == 0)
    ensures Safe(TeardownSection(s, t))
  {
    match s.threads[t]
    case Fail(error, resume) => CloseSectionSafe(s, t, error, ByFail(resume));
    case Close => CloseSectionSafe(s, t, None, ByClose);
    case Settle(error, how) => GotoSafe(s, t, SettleSection(s, t, error, how).threads[t]);
    case ReportEnd(report, how) => GotoSafe(s, t, Cancel(how));
    case Cancel(how) => CancelSectionSafe(s, t, how);
    case AwaitWorkers => GotoSafe(s, t, AwaitSends);
    case AwaitSends => GotoSafe(s, t, CloseOut);
    case CloseOut => CloseOutSafe(s, t);
  }

  lemma SpawnSafe(s: Session, t: nat, retry: bool, gen: nat)
    requires Safe(s) && t < |s.threads| && s.threads[t] == Spawn(retry, gen)
    ensures var back := Goto(s, t, Ensured(retry)); Safe(back.(threads := back.threads + [Reading(gen), KeepAlive]))
  {
    var back := Goto(s, t, Ensured(retry));
    GotoSafe(s, t, Ensured(retry));
    JoinSafe(back, Reading(gen));
    JoinSafe(back.(threads := back.threads + [Reading(gen)]), KeepAlive);
    assert back.threads + [Reading(gen)] + [KeepAlive] == back.threads + [Reading(gen), KeepAlive];
  }

  lemma InstallSafe(s: Session, t: nat, retry: bool)
    requires Safe(s) && t < |s.threads| && s.threads[t] == Install(retry)
    ensures Safe(InstallSection(s, t, retry))
  {
    GotoSafe(s, t, InstallSection(s, t, retry).threads[t]);
  }

  lemma ConnectSafe(s: Session, t: nat)
    requires Safe(s) && t < |s.threads| && IsConnect(s.threads[t])
    ensures Safe(ConnectSection(s, t))
  {
    match s.threads[t]
    case Install(retry) => InstallSafe(s, t, retry);
    case ReportSuccess(retry, gen) => GotoSafe(s, t, Spawn(retry, gen));
    case Spawn(retry, gen) => SpawnSafe(s, t, retry, gen);
  }

  /** A send is taken up only on an open session, so before the teardown has begun. */
  lemma AcceptSafe(s: Session, t: nat, gen: nat)
    requires Safe(s) && t < |s.threads| && s.threads[t].Accept? && !s.closed
    ensures Safe(Goto(s.(sendWG := s.sendWG + 1), t, Sending(gen)))
  {
    UpdateCounts(s.threads, t, Sending(gen));
  }

  lemma SentSafe(s: Session, t: nat, gen: nat)
    requires Safe(s) && t < |s.threads| && s.threads[t].Sending?
    ensures Safe(Goto(s.(sendWG := s.sendWG - 1), t, Reading(gen)))
    ensures s.outClosed == 0 && s.sendWG > 0
  {
    UpdateCounts(s.threads, t, Reading(gen));
  }

  lemma AcceptSectionSafe(s: Session, t: nat, gen: nat, answer: Answer)
    requires Safe(s) && t < |s.threads| && s.threads[t] == Accept(gen)
    ensures Safe(WorkerSection(s, t, answer))
  {
    if s.closed || gen != s.gen {
      GotoSafe(s, t, Reading(gen));
    } else {
      AcceptSafe(s, t, gen);
    }
  }

  lemma ReadingSafe(s: Session, t: nat, gen: nat, answer: Answer)
    requires Safe(s) && t < |s.threads| && s.threads[t] == Reading(gen)
    ensures Safe(ReadSection(s, t, gen, answer))
  {
    ReadIsPrivate(s, t, gen, answer);
    GotoSafe(s, t, ReadSection(s, t, gen, answer).threads[t]);
  }

  lemma LeavingSafe(s: Session, t: nat, answer: Answer)
    requires Safe(s) && t < |s.threads| && (s.threads[t].Lost? || s.threads[t].KeepAlive? || s.threads[t].WorkerDone?)
    ensures Safe(WorkerSection(s, t, answer))
  {
    GotoSafe(s, t, if s.threads[t].WorkerDone? then Finished else WorkerDone);
  }

  lemma WorkerSafe(s: Session, t: nat, answer: Answer)
    requires Safe(s) && t < |s.threads| && IsWorker(s.threads[t])
    ensures Safe(WorkerSection(s, t, answer))
  {
    var thread := s.threads[t];
    if thread.Accept? {
      AcceptSectionSafe(s, t, thread.gen, answer);
    } else if thread.Sending? {
      SentSafe(s, t, thread.gen);
    } else if thread.Reading? {
      ReadingSafe(s, t, thread.gen, answer);
    } else {
      LeavingSafe(s, t, answer);
    }
  }

  lemma PushSafe(max: int, s: Session, t: nat, answer: Answer)
    requires Safe(s) && t < |s.threads| && IsPush(s.threads[t])
    ensures Safe(PushSection(max, s, t, answer))
  {
    PushIsPrivate(max, s, t, answer);
    PushKeepsSends(max, s, t, answer);
    GotoSafe(s, t, PushSection(max, s, t, answer).threads[t]);
  }

  lemma PushKeepsSends(max: int, s: Session, t: nat, answer: Answer)
    requires t < |s.threads| && IsPush(s.threads[t])
    ensures var s' := PushSection(max, s, t, answer);
            |s'.threads| == |s.threads| && s'.sendWG == s.sendWG && !s'.threads[t].Sending?
  {
  }

  lemma StepSafe(max: int, s: Session, step: Step)
    requires Safe(s) && Enabled(s, step)
    ensures Safe(Apply(max, s, step))
  {
    match step
    case CallPush => JoinSafe(s, Push);
    case CallClose => JoinSafe(s, Close);
    case CancelOutside =>
    case Move(t, answer) =>
      if IsPush(s.threads[t]) {
        PushSafe(max, s, t, answer);
      } else if IsConnect(s.threads[t]) {
        ConnectSafe(s, t);
      } else if IsTeardown(s.threads[t]) {
        TeardownSafe(s, t);
      } else if IsWorker(s.threads[t]) {
        WorkerSafe(s, t, answer);
      }
  }

  // ----- Results about every run

  lemma {:induction false} RunsAreSafe(max: int, steps: seq<Step>, states: seq<Session>, n: nat)
    requires IsRun(max, steps, states) && n < |states|
    ensures Told(states[n]) && Safe(states[n])
  {
    if n > 0 {
      RunsAreSafe(max, steps, states, n - 1);
      StepTold(max, states[n - 1], steps[n - 1]);
      StepSafe(max, states[n - 1], steps[n - 1]);
    }
  }

  /** The breaker is told at most once. Once the session has connected or its channel is
      closed it has been told, or one goroutine is just about to tell it; and it hears of
      a success exactly if the session connected before anything else settled. */
  lemma SettledOnce(max: int, steps: seq<Step>, states: seq<Session>, n: nat)
    requires IsRun(max, steps, states) && n < |states|
    ensures var s := states[n];
            && |s.reports| <= 1
            && (s.connectedOnce || s.outClosed > 0 ==> |s.reports| == 1 || exists t :: 0 <= t < |s.threads| && Reporting(s.threads[t]))
            && (s.reports != [] ==> (s.reports[0] == Success <==> s.connectedOnce))
            && (forall t, u :: 0 <= t < |s.threads| && 0 <= u < |s.threads| && Reporting(s.threads[t]) && Reporting(s.threads[u]) ==> t == u)
            && (forall t :: 0 <= t < |s.threads| && Reporting(s.threads[t]) ==> s.reports == [])
  {
    RunsAreSafe(max, steps, states, n);
  }

  /** The channel is closed at most once and nothing is sent on it afterwards. */
  lemma NothingSentAfterClose(max: int, steps: seq<Step>, states: seq<Session>, n: nat)
    requires IsRun(max, steps, states) && n < |states|
    ensures states[n].outClosed <= 1
    ensures n < |steps| && Delivers(states[n], steps[n]) ==> states[n].outClosed == 0
  {
    RunsAreSafe(max, steps, states, n);
    if n < |steps| && Delivers(states[n], steps[n]) {
      SentSafe(states[n], steps[n].t, states[n].threads[steps[n].t].gen);
    }
  }

  // ----- (3) A closed session may have a connection in place; AsrConnections follows all
  // connections, in place or not

  /** A dial that was under way when the session closed comes back. */
  predicate ConnectsLate(s: Session, step: Step) {
    step.Move? && step.t < |s.threads| && s.threads[step.t].Install? && s.closed
  }

  lemma PushKeepsConn(max: int, s: Session, t: nat, answer: Answer)
    requires t < |s.threads| && IsPush(s.threads[t])
    ensures var s' := PushSection(max, s, t, answer); s'.conn == s.conn && s'.closed == s.closed
  {
  }

  lemma WorkerKeepsConn(s: Session, t: nat, answer: Answer)
    requires t < |s.threads| && IsWorker(s.threads[t])
    ensures var s' := WorkerSection(s, t, answer); s'.closed == s.closed && (s.closed ==> s'.conn == s.conn)
  {
  }

  lemma TeardownKeepsConn(s: Session, t: nat)
    requires t < |s.threads| && IsTeardown(s.threads[t])
    ensures var s' := TeardownSection(s, t);
            (s.closed ==> s'.closed && s'.conn == s.conn) && (!s.closed && s'.closed ==> s'.conn == 0)
  {
  }

  lemma StepHolds(max: int, s: Session, step: Step)
    requires Enabled(s, step)
    ensures var s' := Apply(max, s, step);
            s'.closed && s'.conn != 0 <==> (s.closed && s.conn != 0) || ConnectsLate(s, step)
  {
    if step.Move? {
      var (t, answer) := (step.t, step.answer);
      if IsPush(s.threads[t]) {
        PushKeepsConn(max, s, t, answer);
      } else if IsTeardown(s.threads[t]) {
        TeardownKeepsConn(s, t);
      } else if IsWorker(s.threads[t]) {
        WorkerKeepsConn(s, t, answer);
      }
    }
  }

  /** The exact condition: a closed session has a connection in s.conn, which nothing
      closes any more, if and only if some dial came back after it was closed. */
  lemma {:induction false} HoldsConnIffConnectedLate(max: int, steps: seq<Step>, states: seq<Session>, n: nat)
    requires IsRun(max, steps, states) && n < |states|
    ensures states[n].closed && states[n].conn != 0 <==> exists i :: 0 <= i < n && ConnectsLate(states[i], steps[i])
  {
    if n > 0 {
      HoldsConnIffConnectedLate(max, steps, states, n - 1);
      StepHolds(max, states[n - 1], steps[n - 1]);
    }
  }

  // ----- (4) One failed dial is the end of a session

  predicate AboutToFail(threads: seq<Thread>) {
    exists t :: 0 <= t < |threads| && threads[t].Fail?
  }

  ghost predicate Doomed(s: Session) {
    s.closed || AboutToFail(s.threads)
  }

  /** What a section does to the failure count and to the other goroutines. */
  ghost predicate Apart(s: Session, s': Session, t: nat) {
    && t < |s.threads| <= |s'.threads|
    && (forall u :: 0 <= u < |s.threads| && u != t ==> s'.threads[u] == s.threads[u])
    && (s'.attempts == s.attempts || s'.threads[t].Fail?)
    && (s.threads[t].Fail? || s.closed ==> s'.closed)
  }

  lemma PushApart(max: int, s: Session, t: nat, answer: Answer)
    requires t < |s.threads| && IsPush(s.threads[t])
    ensures Apart(s, PushSection(max, s, t, answer), t)
  {
  }

  lemma WorkerApart(s: Session, t: nat, answer: Answer)
    requires t < |s.threads| && IsWorker(s.threads[t])
    ensures Apart(s, WorkerSection(s, t, answer), t)
  {
    WorkerIsPrivate(s, t, answer);
  }

  lemma TeardownApart(s: Session, t: nat)
    requires t < |s.threads| && IsTeardown(s.threads[t])
    ensures Apart(s, TeardownSection(s, t), t)
  {
    TeardownKeepsConn(s, t);
  }

  lemma ConnectApart(s: Session, t: nat)
    requires t < |s.threads| && IsConnect(s.threads[t])
    ensures Apart(s, ConnectSection(s, t), t)
  {
  }

  lemma SectionApart(max: int, s: Session, t: nat, answer: Answer)
    requires t < |s.threads|
    ensures Apart(s, Section(max, s, t, answer), t)
  {
    if IsPush(s.threads[t]) {
      PushApart(max, s, t, answer);
    } else if IsConnect(s.threads[t]) {
      ConnectApart(s, t);
    } else if IsTeardown(s.threads[t]) {
      TeardownApart(s, t);
    } else if IsWorker(s.threads[t]) {
      WorkerApart(s, t, answer);
    }
  }

  lemma StepDooms(max: int, s: Session, step: Step)
    requires Enabled(s, step) && (s.attempts > 0 ==> Doomed(s))
    ensures Apply(max, s, step).attempts > 0 ==> Doomed(Apply(max, s, step))
  {
    var s' := Apply(max, s, step);
    if step.Move? {
      var (t, answer) := (step.t, step.answer);
      SectionApart(max, s, t, answer);
      if s.attempts > 0 && !s.closed && !s.threads[t].Fail? {
        var u :| 0 <= u < |s.threads| && s.threads[u].Fail?;
        assert s'.threads[u].Fail?;
      }
    } else if s.attempts > 0 && !s.closed {
      var u :| 0 <= u < |s.threads| && s.threads[u].Fail?;
      assert s'.threads[u].Fail?;
    }
  }

  lemma NextDooms(max: int, steps: seq<Step>, states: seq<Session>, k: nat)
    requires IsRun(max, steps, states) && k < |steps| && (states[k].attempts > 0 ==> Doomed(states[k]))
    ensures states[k + 1].attempts > 0 ==> Doomed(states[k + 1])
  {
    StepDooms(max, states[k], steps[k]);
  }

  /** Once a dial has failed the session is closed or its failing goroutine is just about
      to close it: another attempt, after a backoff, is possible only in between. */
  lemma {:induction false} FailedDialIsFatal(max: int, steps: seq<Step>, states: seq<Session>, n: nat)
    requires IsRun(max, steps, states) && n < |states| && states[n].attempts > 0
    ensures states[n].closed || AboutToFail(states[n].threads)
  {
    if n > 0 {
      if states[n - 1].attempts > 0 {
        FailedDialIsFatal(max, steps, states, n - 1);
      }
      NextDooms(max, steps, states, n - 1);
    }
  }

  predicate NotBackingOff(s: Session, t: nat) {
    t < |s.threads| && !s.threads[t].Backoff?
  }

  lemma ClosingDoesNotBackOff(s: Session, t: nat, error: Error, how: Teardown)
    requires t < |s.threads|
    ensures NotBackingOff(CloseSection(s, t, error, how), t) && NotBackingOff(SettleSection(s, t, error, how), t)
    ensures NotBackingOff(CancelSection(s, t, how), t)
  {
  }

  lemma TeardownDoesNotBackOff(s: Session, t: nat)
    requires t < |s.threads| && IsTeardown(s.threads[t])
    ensures NotBackingOff(TeardownSection(s, t), t)
  {
    match s.threads[t]
    case Fail(error, resume) => ClosingDoesNotBackOff(s, t, error, ByFail(resume));
    case Close => ClosingDoesNotBackOff(s, t, None, ByClose);
    case Settle(error, how) => ClosingDoesNotBackOff(s, t, error, how);
    case Cancel(how) => ClosingDoesNotBackOff(s, t, None, how);
    case _ =>
  }

  lemma ConnectDoesNotBackOff(s: Session, t: nat)
    requires t < |s.threads| && IsConnect(s.threads[t])
    ensures NotBackingOff(ConnectSection(s, t), t)
  {
  }

  lemma ReadingDoesNotBackOff(s: Session, t: nat, gen: nat, answer: Answer)
    requires t < |s.threads| && s.threads[t] == Reading(gen)
    ensures NotBackingOff(ReadSection(s, t, gen, answer), t)
  {
  }

  lemma WorkerDoesNotBackOff(s: Session, t: nat, answer: Answer)
    requires t < |s.threads| && IsWorker(s.threads[t])
    ensures NotBackingOff(WorkerSection(s, t, answer), t)
  {
    if s.threads[t].Reading? {
      ReadingDoesNotBackOff(s, t, s.threads[t].gen, answer);
    }
  }

  /** Whether ensureConnected goes into the backoff of another attempt. */
  predicate BacksOff(max: int, s: Session, thread: Thread) {
    thread.Ensure? && s.conn == 0 && !s.closed && 0 < s.attempts < max
  }

  lemma PushBacksOff(max: int, s: Session, t: nat, answer: Answer)
    requires t < |s.threads| && IsPush(s.threads[t]) && !s.threads[t].Backoff?
    ensures t < |PushSection(max, s, t, answer).threads|
    ensures PushSection(max, s, t, answer).threads[t].Backoff? <==> BacksOff(max, s, s.threads[t])
  {
  }

  lemma OnlyEnsureBacksOff(max: int, s: Session, t: nat, answer: Answer)
    requires t < |s.threads| && !s.threads[t].Backoff?
    ensures t < |Section(max, s, t, answer).threads|
    ensures Section(max, s, t, answer).threads[t].Backoff? <==> BacksOff(max, s, s.threads[t])
  {
    if IsPush(s.threads[t]) {
      PushBacksOff(max, s, t, answer);
    } else if IsConnect(s.threads[t]) {
      ConnectDoesNotBackOff(s, t);
    } else if IsTeardown(s.threads[t]) {
      TeardownDoesNotBackOff(s, t);
    } else if IsWorker(s.threads[t]) {
      WorkerDoesNotBackOff(s, t, answer);
    }
  }

  /** The exact condition: a goroutine goes into the backoff of another attempt exactly if
      it looks between the counting of a failure and the closing that follows it. */
  lemma BackoffExactly(max: int, steps: seq<Step>, states: seq<Session>, n: nat, t: nat)
    requires IsRun(max, steps, states) && n < |steps| && t < |states[n].threads| && !states[n].threads[t].Backoff?
    ensures t < |states[n + 1].threads|
    ensures states[n + 1].threads[t].Backoff? <==>
            steps[n].Move? && steps[n].t == t && BacksOff(max, states[n], states[n].threads[t])
    ensures states[n + 1].threads[t].Backoff? ==> AboutToFail(states[n].threads)
  {
    var (s, step) := (states[n], steps[n]);
    if step.Move? {
      SectionApart(max, s, step.t, step.answer);
      if step.t == t {
        OnlyEnsureBacksOff(max, s, t, step.answer);
      }
    }
    if s.attempts > 0 {
      FailedDialIsFatal(max, steps, states, n);
    }
  }

  // Of three attempts allowed only one is made: the first dial is refused.
  const REFUSED_STEPS := [CallPush, Move(0, Works), Move(0, Works), Move(0, Fails(Refused)), Move(0, Works), Move(0, Works)]

  const REFUSED_STATES := [
    OPENED,
    OPENED.(threads := [Push]),
    OPENED.(threads := [Ensure(false)]),
    OPENED.(threads := [Dial(false)]),
    OPENED.(threads := [DialFailed(Refused)]),
    OPENED.(threads := [Fail(Refused, Return)], attempts := 1),
    OPENED.(threads := [Settle(Refused, ByFail(Return))], attempts := 1, closed := true, owner := 0)]

  ghost predicate Refuses(i: nat)
    requires i < 6
  {
    && Enabled(REFUSED_STATES[i], REFUSED_STEPS[i])
    && REFUSED_STATES[i + 1] == Apply(3, REFUSED_STATES[i], REFUSED_STEPS[i])
  }

  lemma DialGoesOut()
    ensures Refuses(0) && Refuses(1) && Refuses(2)
  {
  }

  lemma DialIsRefused()
    ensures Refuses(3) && Refuses(4) && Refuses(5)
  {
  }

  lemma OneRefusalEndsTheSession()
    ensures IsRun(3, REFUSED_STEPS, REFUSED_STATES) && REFUSED_STATES[6].closed && REFUSED_STATES[6].attempts == 1
  {
    forall i | 0 <= i < |REFUSED_STEPS|
      ensures && Enabled(REFUSED_STATES[i], REFUSED_STEPS[i])
              && REFUSED_STATES[i + 1] == Apply(3, REFUSED_STATES[i], REFUSED_STEPS[i])
    {
      if i < 3 {
        DialGoesOut();
      } else {
        DialIsRefused();
      }
      assert Refuses(i);
    }
  }

  // A second push finds the gap and backs off for another attempt.
  const GAP_STEPS := [
    CallPush, CallPush, Move(0, Works), Move(1, Works), Move(0, Works), Move(0, Fails(Refused)), Move(0, Works), Move(1, Works)]

  const GAP_STATES := [
    OPENED,
    OPENED.(threads := [Push]),
    OPENED.(threads := [Push, Push]),
    OPENED.(threads := [Ensure(false), Push]),
    OPENED.(threads := [Ensure(false), Ensure(false)]),
    OPENED.(threads := [Dial(false), Ensure(false)]),
    OPENED.(threads := [DialFailed(Refused), Ensure(false)]),
    OPENED.(threads := [Fail(Refused, Return), Ensure(false)], attempts := 1),
    OPENED.(threads := [Fail(Refused, Return), Backoff(false)], attempts := 1)]

  ghost predicate Slips(i: nat)
    requires i < 8
  {
    Enabled(GAP_STATES[i], GAP_STEPS[i]) && GAP_STATES[i + 1] == Apply(3, GAP_STATES[i], GAP_STEPS[i])
  }

  lemma TwoPushes()
    ensures Slips(0) && Slips(1) && Slips(2) && Slips(3)
  {
  }

  lemma FirstIsRefused()
    ensures Slips(4) && Slips(5) && Slips(6)
  {
  }

  lemma SecondSlipsIn()
    ensures Slips(7)
  {
  }

  lemma SlipsThroughout(i: nat)
    requires i < 8
    ensures Slips(i)
  {
    if i < 4 {
      TwoPushes();
    } else if i < 7 {
      FirstIsRefused();
    } else {
      SecondSlipsIn();
    }
  }

  lemma SecondAttemptInTheGap()
    ensures IsRun(3, GAP_STEPS, GAP_STATES) && GAP_STATES[8].threads[1].Backoff? && !GAP_STATES[8].closed
  {
    forall i | 0 <= i < |GAP_STEPS|
      ensures Enabled(GAP_STATES[i], GAP_STEPS[i]) && GAP_STATES[i + 1] == Apply(3, GAP_STATES[i], GAP_STEPS[i])
    {
      SlipsThroughout(i);
    }
  }

  // It does happen: Close comes while the first dial is under way.
  const LATE_STEPS := [
    CallPush, Move(0, Works), Move(0, Works), Move(0, Works), CallClose, Move(1, Works), Move(0, Works)]

  const LATE_STATES := [
    OPENED,
    OPENED.(threads := [Push]),
    OPENED.(threads := [Ensure(false)]),
    OPENED.(threads := [Dial(false)]),
    OPENED.(threads := [Install(false)]),
    OPENED.(threads := [Install(false), Close]),
    OPENED.(threads := [Install(false), Settle(None, ByClose)], closed := true, owner := 1),
    OPENED.(threads := [ReportSuccess(false, 1), Settle(None, ByClose)], closed := true, owner := 1,
            conn := 1, gen := 1, connectedOnce := true, breakerSettled := true, reporter := 0)]

  ghost predicate Follows(i: nat)
    requires i < 7
  {
    Enabled(LATE_STATES[i], LATE_STEPS[i]) && LATE_STATES[i + 1] == Apply(3, LATE_STATES[i], LATE_STEPS[i])
  }

  lemma DialBegins()
    ensures Follows(0) && Follows(1) && Follows(2) && Follows(3)
  {
  }

  lemma CloseOvertakes()
    ensures Follows(4) && Follows(5) && Follows(6)
  {
  }

  lemma ClosedWithLiveConnection()
    ensures IsRun(3, LATE_STEPS, LATE_STATES) && LATE_STATES[7].closed && LATE_STATES[7].conn == 1
  {
    forall i | 0 <= i < |LATE_STEPS|
      ensures Enabled(LATE_STATES[i], LATE_STEPS[i]) && LATE_STATES[i + 1] == Apply(3, LATE_STATES[i], LATE_STEPS[i])
    {
      if i < 4 {
        DialBegins();
      } else {
        CloseOvertakes();
      }
      assert Follows(i);
    }
  }
}
