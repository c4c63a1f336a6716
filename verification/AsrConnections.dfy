/** What becomes of every connection a Deepgram session dials, over any run: which ones
    the teardown closes, and exactly which ones nobody ever does. */
module AsrConnections {
  import opened AsrSession
  import opened AsrRuns

  // ----- How a connection comes to be the session's and how it ceases to be

  predicate Installs(s: Session, step: Step) {
    step.Move? && step.t < |s.threads| && s.threads[step.t].Install?
  }

  /** Connection c is installed on a session already closed. */
  predicate InstallsLate(s: Session, step: Step, c: nat) {
    ConnectsLate(s, step) && c == s.gen + 1
  }

  /** An install finds connection c in place and overwrites it. */
  predicate Replaces(s: Session, step: Step, c: nat) {
    Installs(s, step) && s.conn == c && c > 0
  }

  /** The reader of connection c takes it out after a failed read, without closing it. */
  predicate Drops(s: Session, step: Step, c: nat) {
    step.Move? && step.t < |s.threads| && s.threads[step.t] == Lost(c) && !s.closed && s.conn == c && c > 0
  }

  /** The teardown begins, and takes connection c. */
  predicate Takes(s: Session, step: Step, c: nat) {
    && step.Move? && step.t < |s.threads| && (s.threads[step.t].Fail? || s.threads[step.t].Close?)
    && !s.closed && s.conn == c && c > 0
  }

  /** The teardown has not come past closing what it took. */
  predicate StillClosing(thread: Thread) {
    thread.Settle? || thread.ReportEnd? || thread.Cancel?
  }

  ghost predicate Accounts(s: Session) {
    && (s.conn != 0 ==> s.conn == s.gen)
    && s.taken <= s.gen && (s.taken != 0 ==> s.closed && s.conn != s.taken)
    && (forall c :: c in s.shut ==> c == s.taken && c != 0)
    && (s.taken != 0 && s.taken !in s.shut ==> 0 <= s.owner < |s.threads| && StillClosing(s.threads[s.owner]))
    && (forall t :: 0 <= t < |s.threads| && s.threads[t].Lost? ==> s.threads[t].gen in s.lost)
  }

  ghost predicate Later(s: Session, s': Session) {
    s.gen <= s'.gen && s.lost <= s'.lost && (s.closed ==> s'.closed && s'.taken == s.taken)
  }

  lemma StillLater(a: Session, b: Session, c: Session)
    requires Later(a, b) && Later(b, c)
    ensures Later(a, c)
  {
  }

  /** Numbers are given out in turn; the teardown takes one connection at most. */
  ghost predicate Progresses(s: Session, s': Session, step: Step) {
    && Later(s, s')
    && (s'.gen > s.gen ==> Installs(s, step) && s'.gen == s.gen + 1 && s'.conn == s'.gen && s'.closed == s.closed)
  }

  /** What a step does to connection c. */
  ghost predicate Carries(s: Session, s': Session, step: Step, c: nat) {
    && (s'.conn == c <==> s.conn == c && !Replaces(s, step, c) && !Drops(s, step, c) && !Takes(s, step, c))
    && (s'.taken == c <==> s.taken == c || Takes(s, step, c))
  }

  lemma PushKeepsConnections(max: int, s: Session, t: nat, answer: Answer)
    requires t < |s.threads| && IsPush(s.threads[t])
    ensures var s' := PushSection(max, s, t, answer);
            s'.conn == s.conn && s'.taken == s.taken && s'.gen == s.gen && s'.shut == s.shut && s'.lost == s.lost
    ensures !PushSection(max, s, t, answer).threads[t].Lost?
  {
  }

  lemma PushCarries(max: int, s: Session, t: nat, answer: Answer, c: nat)
    requires t < |s.threads| && IsPush(s.threads[t])
    ensures var s' := PushSection(max, s, t, answer); Progresses(s, s', Move(t, answer)) && Carries(s, s', Move(t, answer), c)
  {
    PushKeepsConnections(max, s, t, answer);
    PushKeepsConn(max, s, t, answer);
  }

  lemma WorkerKeepsConnections(s: Session, t: nat, answer: Answer)
    requires t < |s.threads| && IsWorker(s.threads[t])
    ensures var s' := WorkerSection(s, t, answer);
            && s'.taken == s.taken && s'.gen == s.gen && s'.shut == s.shut && s.lost <= s'.lost
            && (s'.conn == if s.threads[t].Lost? && !s.closed && s.threads[t].gen == s.gen then 0 else s.conn)
            && (s'.threads[t].Lost? ==> s'.threads[t].gen in s'.lost)
  {
    if s.threads[t].Reading? {
      ReadingKeepsConnections(s, t, s.threads[t].gen, answer);
    }
  }

  lemma ReadingKeepsConnections(s: Session, t: nat, gen: nat, answer: Answer)
    requires t < |s.threads| && s.threads[t] == Reading(gen)
    ensures var s' := ReadSection(s, t, gen, answer);
            && s'.taken == s.taken && s'.gen == s.gen && s'.shut == s.shut && s.lost <= s'.lost && s'.conn == s.conn
            && (s'.threads[t].Lost? ==> s'.threads[t].gen in s'.lost)
  {
  }

  lemma WorkerProgresses(s: Session, t: nat, answer: Answer)
    requires t < |s.threads| && IsWorker(s.threads[t])
    ensures Progresses(s, WorkerSection(s, t, answer), Move(t, answer))
  {
    WorkerKeepsConnections(s, t, answer);
    WorkerKeepsConn(s, t, answer);
  }

  lemma WorkerCarries(s: Session, t: nat, answer: Answer, c: nat)
    requires Accounts(s) && t < |s.threads| && IsWorker(s.threads[t]) && 1 <= c <= s.gen
    ensures Carries(s, WorkerSection(s, t, answer), Move(t, answer), c)
  {
    WorkerKeepsConnections(s, t, answer);
  }

  lemma ConnectProgresses(s: Session, t: nat, answer: Answer)
    requires Accounts(s) && t < |s.threads| && IsConnect(s.threads[t])
    ensures var s' := ConnectSection(s, t); Progresses(s, s', Move(t, answer))
  {
  }

  lemma ConnectCarries(s: Session, t: nat, answer: Answer, c: nat)
    requires Accounts(s) && t < |s.threads| && IsConnect(s.threads[t]) && 1 <= c <= s.gen
    ensures var s' := ConnectSection(s, t); Carries(s, s', Move(t, answer), c)
  {
  }

  lemma CloseTakes(s: Session, t: nat, error: Error, how: Teardown)
    requires t < |s.threads|
    ensures var s' := CloseSection(s, t, error, how);
            && s'.gen == s.gen && s'.shut == s.shut && s'.lost == s.lost && s'.closed
            && (if s.closed then s'.conn == s.conn && s'.taken == s.taken else s'.conn == 0 && s'.taken == s.conn)
  {
  }

  lemma CancelShuts(s: Session, t: nat, how: Teardown)
    requires t < |s.threads|
    ensures var s' := CancelSection(s, t, how);
            && s'.gen == s.gen && s'.lost == s.lost && s'.conn == s.conn && s'.taken == s.taken && s'.closed == s.closed
  {
  }

  lemma TeardownTakes(s: Session, t: nat)
    requires t < |s.threads| && IsTeardown(s.threads[t])
    ensures var s' := TeardownSection(s, t);
            && s'.gen == s.gen && s'.lost == s.lost && (s.closed ==> s'.closed)
            && if (s.threads[t].Fail? || s.threads[t].Close?) && !s.closed then s'.conn == 0 && s'.taken == s.conn
               else s'.conn == s.conn && s'.taken == s.taken
  {
    match s.threads[t]
    case Fail(error, resume) => CloseTakes(s, t, error, ByFail(resume));
    case Close => CloseTakes(s, t, None, ByClose);
    case Cancel(how) => CancelShuts(s, t, how);
    case _ =>
  }

  lemma TeardownProgresses(s: Session, t: nat, answer: Answer)
    requires t < |s.threads| && IsTeardown(s.threads[t])
    ensures Progresses(s, TeardownSection(s, t), Move(t, answer))
  {
    TeardownTakes(s, t);
  }

  lemma TeardownCarries(s: Session, t: nat, answer: Answer, c: nat)
    requires Accounts(s) && t < |s.threads| && IsTeardown(s.threads[t]) && 1 <= c <= s.gen
    ensures Carries(s, TeardownSection(s, t), Move(t, answer), c)
  {
    TeardownTakes(s, t);
  }

  lemma StepCarries(max: int, s: Session, step: Step, c: nat)
    requires Accounts(s) && Enabled(s, step) && 1 <= c <= s.gen
    ensures Carries(s, Apply(max, s, step), step, c)
  {
    if step.Move? {
      var (t, answer) := (step.t, step.answer);
      if IsPush(s.threads[t]) {
        PushCarries(max, s, t, answer, c);
      } else if IsConnect(s.threads[t]) {
        ConnectCarries(s, t, answer, c);
      } else if IsTeardown(s.threads[t]) {
        TeardownCarries(s, t, answer, c);
      } else if IsWorker(s.threads[t]) {
        WorkerCarries(s, t, answer, c);
      }
    }
  }

  lemma StepProgresses(max: int, s: Session, step: Step)
    requires Accounts(s) && Enabled(s, step)
    ensures Progresses(s, Apply(max, s, step), step)
  {
    if step.Move? {
      var (t, answer) := (step.t, step.answer);
      if IsPush(s.threads[t]) {
        PushCarries(max, s, t, answer, 0);
      } else if IsConnect(s.threads[t]) {
        ConnectProgresses(s, t, answer);
      } else if IsTeardown(s.threads[t]) {
        TeardownProgresses(s, t, answer);
      } else if IsWorker(s.threads[t]) {
        WorkerProgresses(s, t, answer);
      }
    }
  }

  lemma PushAccounts(max: int, s: Session, t: nat, answer: Answer)
    requires Accounts(s) && t < |s.threads| && IsPush(s.threads[t])
    ensures Accounts(PushSection(max, s, t, answer))
  {
    PushIsPrivate(max, s, t, answer);
    PushKeepsConnections(max, s, t, answer);
    PushKeepsConn(max, s, t, answer);
  }

  lemma WorkerAccounts(s: Session, t: nat, answer: Answer)
    requires Accounts(s) && t < |s.threads| && IsWorker(s.threads[t])
    ensures Accounts(WorkerSection(s, t, answer))
  {
    WorkerIsPrivate(s, t, answer);
    WorkerKeepsConnections(s, t, answer);
  }

  lemma InstallAccounts(s: Session, t: nat, retry: bool)
    requires Accounts(s) && t < |s.threads| && s.threads[t] == Install(retry)
    ensures Accounts(InstallSection(s, t, retry))
  {
  }

  lemma SpawnAccounts(s: Session, t: nat)
    requires Accounts(s) && t < |s.threads| && (s.threads[t].ReportSuccess? || s.threads[t].Spawn?)
    ensures Accounts(ConnectSection(s, t))
  {
  }

  lemma ConnectAccounts(s: Session, t: nat)
    requires Accounts(s) && t < |s.threads| && IsConnect(s.threads[t])
    ensures Accounts(ConnectSection(s, t))
  {
    if s.threads[t].Install? {
      InstallAccounts(s, t, s.threads[t].retry);
    } else {
      SpawnAccounts(s, t);
    }
  }

  lemma CloseAccounts(s: Session, t: nat, error: Error, how: Teardown)
    requires Accounts(s) && t < |s.threads| && (s.threads[t].Fail? || s.threads[t].Close?)
    ensures Accounts(CloseSection(s, t, error, how))
  {
  }

  lemma SettleAccounts(s: Session, t: nat, error: Error, how: Teardown)
    requires Accounts(s) && Safe(s) && t < |s.threads| && s.threads[t] == Settle(error, how)
    ensures Accounts(SettleSection(s, t, error, how))
  {
  }

  lemma CancelAccounts(s: Session, t: nat, how: Teardown)
    requires Accounts(s) && t < |s.threads| && s.threads[t] == Cancel(how)
    ensures Accounts(CancelSection(s, t, how))
  {
  }

  lemma WaitAccounts(s: Session, t: nat)
    requires Accounts(s) && Safe(s) && t < |s.threads| && IsTeardown(s.threads[t])
    requires s.threads[t].ReportEnd? || s.threads[t].AwaitWorkers? || s.threads[t].AwaitSends? || s.threads[t].CloseOut?
    ensures Accounts(TeardownSection(s, t))
  {
  }

  lemma TeardownAccounts(s: Session, t: nat)
    requires Accounts(s) && Safe(s) && t < |s.threads| && IsTeardown(s.threads[t])
    ensures Accounts(TeardownSection(s, t))
  {
    match s.threads[t]
    case Fail(error, resume) => CloseAccounts(s, t, error, ByFail(resume));
    case Close => CloseAccounts(s, t, None, ByClose);
    case Settle(error, how) => SettleAccounts(s, t, error, how);
    case Cancel(how) => CancelAccounts(s, t, how);
    case _ => WaitAccounts(s, t);
  }

  lemma StepAccounts(max: int, s: Session, step: Step)
    requires Accounts(s) && Safe(s) && Enabled(s, step)
    ensures Accounts(Apply(max, s, step))
  {
    if step.Move? {
      var (t, answer) := (step.t, step.answer);
      if IsPush(s.threads[t]) {
        PushAccounts(max, s, t, answer);
      } else if IsConnect(s.threads[t]) {
        ConnectAccounts(s, t);
      } else if IsTeardown(s.threads[t]) {
        TeardownAccounts(s, t);
      } else if IsWorker(s.threads[t]) {
        WorkerAccounts(s, t, answer);
      }
    }
  }

  lemma {:induction false} RunsAccount(max: int, steps: seq<Step>, states: seq<Session>, n: nat)
    requires IsRun(max, steps, states) && n < |states|
    ensures Accounts(states[n]) && Safe(states[n])
  {
    RunsAreSafe(max, steps, states, n);
    if n > 0 {
      RunsAccount(max, steps, states, n - 1);
      StepAccounts(max, states[n - 1], steps[n - 1]);
    }
  }

  // ----- Runs seen as what becomes of connections

  ghost predicate Passes(s: Session, s': Session, step: Step) {
    && Accounts(s) && Accounts(s') && Progresses(s, s', step)
    && (s'.closed && s'.conn != 0 ==> (s.closed && s.conn != 0) || ConnectsLate(s, step))
    && (forall c :: 1 <= c <= s.gen ==> Carries(s, s', step, c))
  }

  ghost predicate Chronicle(steps: seq<Step>, states: seq<Session>) {
    && |states| == |steps| + 1 && states[0] == OPENED
    && forall k :: 0 <= k < |steps| ==> Passes(states[k], states[k + 1], steps[k])
  }

  lemma StepPasses(max: int, s: Session, step: Step)
    requires Accounts(s) && Safe(s) && Enabled(s, step)
    ensures Passes(s, Apply(max, s, step), step)
  {
    StepAccounts(max, s, step);
    StepProgresses(max, s, step);
    StepHolds(max, s, step);
    forall c: nat | 1 <= c <= s.gen
      ensures Carries(s, Apply(max, s, step), step, c)
    {
      StepCarries(max, s, step, c);
    }
  }

  lemma RunIsChronicle(max: int, steps: seq<Step>, states: seq<Session>)
    requires IsRun(max, steps, states)
    ensures Chronicle(steps, states)
  {
    forall k | 0 <= k < |steps|
      ensures Passes(states[k], states[k + 1], steps[k])
    {
      RunsAccount(max, steps, states, k);
      StepPasses(max, states[k], steps[k]);
    }
  }

  lemma AccountedAt(steps: seq<Step>, states: seq<Session>, n: nat)
    requires Chronicle(steps, states) && n < |states|
    ensures Accounts(states[n])
  {
    if n > 0 {
      assert Passes(states[n - 1], states[n], steps[n - 1]);
    }
  }

  /** By state n an install or a failed read has taken connection c out of place. */
  ghost predicate Strayed(steps: seq<Step>, states: seq<Session>, n: nat, c: nat)
    requires n < |states| == |steps| + 1
  {
    exists i :: 0 <= i < n && (Replaces(states[i], steps[i], c) || Drops(states[i], steps[i], c))
  }

  ghost predicate CameLate(steps: seq<Step>, states: seq<Session>, n: nat, c: nat)
    requires n < |states| == |steps| + 1
  {
    exists i :: 0 <= i < n && InstallsLate(states[i], steps[i], c)
  }

  lemma {:induction false} NumbersGrow(steps: seq<Step>, states: seq<Session>, m: nat, n: nat)
    requires Chronicle(steps, states) && m <= n < |states|
    ensures Later(states[m], states[n])
  {
    if m < n {
      NumbersGrow(steps, states, m, n - 1);
      assert Passes(states[n - 1], states[n], steps[n - 1]);
      StillLater(states[m], states[n - 1], states[n]);
    }
  }

  lemma NotStrayedYet(steps: seq<Step>, states: seq<Session>, n: nat, c: nat)
    requires Chronicle(steps, states) && 0 < n < |states| && c > states[n - 1].gen
    ensures !Strayed(steps, states, n, c)
  {
    forall i | 0 <= i < n
      ensures !Replaces(states[i], steps[i], c) && !Drops(states[i], steps[i], c)
    {
      AccountedAt(steps, states, i);
      NumbersGrow(steps, states, i, n - 1);
    }
  }

  /** Connection c is either the session's, or the one the teardown took, or has strayed. */
  ghost predicate Placed(s: Session, c: nat, strayed: bool) {
    (s.taken == c <==> s.conn != c && !strayed) && (strayed ==> s.conn != c)
  }

  lemma PlaceCarries(s: Session, s': Session, step: Step, c: nat, strayed: bool)
    requires Accounts(s) && Carries(s, s', step, c) && c > 0 && Placed(s, c, strayed)
    ensures Placed(s', c, strayed || Replaces(s, step, c) || Drops(s, step, c))
  {
  }

  lemma {:induction false} InOnePlace(steps: seq<Step>, states: seq<Session>, n: nat, c: nat)
    requires Chronicle(steps, states) && n < |states| && 1 <= c <= states[n].gen
    ensures Placed(states[n], c, Strayed(steps, states, n, c))
  {
    if n > 0 {
      var (s, s', step) := (states[n - 1], states[n], steps[n - 1]);
      assert Passes(s, s', step);
      if c <= s.gen {
        InOnePlace(steps, states, n - 1, c);
        assert Strayed(steps, states, n, c) <==> Strayed(steps, states, n - 1, c) || Replaces(s, step, c) || Drops(s, step, c);
        PlaceCarries(s, s', step, c, Strayed(steps, states, n - 1, c));
      } else {
        NotStrayedYet(steps, states, n, c);
      }
    }
  }

  lemma InPlaceBefore(s: Session, s': Session, step: Step, c: nat)
    requires Passes(s, s', step) && s'.closed && s'.conn == c > 0
    ensures InstallsLate(s, step, c) || (s.closed && s.conn == c)
  {
    if c <= s.gen {
      assert Carries(s, s', step, c);
    }
  }

  /** On a closed session only a dial that came back late can be in place. */
  lemma {:induction false} InPlaceCameLate(steps: seq<Step>, states: seq<Session>, n: nat, c: nat)
    requires Chronicle(steps, states) && n < |states| && states[n].closed && states[n].conn == c > 0
    ensures CameLate(steps, states, n, c)
  {
    if n > 0 {
      InPlaceBefore(states[n - 1], states[n], steps[n - 1], c);
      if !InstallsLate(states[n - 1], steps[n - 1], c) {
        InPlaceCameLate(steps, states, n - 1, c);
      }
    }
  }

  lemma LateIsNotTaken(steps: seq<Step>, states: seq<Session>, n: nat, c: nat)
    requires Chronicle(steps, states) && n < |states| && CameLate(steps, states, n, c)
    ensures states[n].taken != c
  {
    var i :| 0 <= i < n && InstallsLate(states[i], steps[i], c);
    AccountedAt(steps, states, i);
    NumbersGrow(steps, states, i, n);
  }

  /** The exact condition: once the teardown has closed what it took, a connection has
      been left unclosed if and only if it was installed after the session was closed, or
      overwritten by another install, or put aside after a failed read. */
  lemma NeverClosedExactly(max: int, steps: seq<Step>, states: seq<Session>, n: nat, c: nat)
    requires IsRun(max, steps, states) && n < |states| && 1 <= c <= states[n].gen && states[n].closed
    requires forall t :: 0 <= t < |states[n].threads| ==> !StillClosing(states[n].threads[t])
    ensures c !in states[n].shut <==>
            exists i :: 0 <= i < n &&
                        (InstallsLate(states[i], steps[i], c) || Replaces(states[i], steps[i], c) || Drops(states[i], steps[i], c))
  {
    RunIsChronicle(max, steps, states);
    AccountedAt(steps, states, n);
    InOnePlace(steps, states, n, c);
    if CameLate(steps, states, n, c) {
      LateIsNotTaken(steps, states, n, c);
    } else if states[n].conn == c {
      InPlaceCameLate(steps, states, n, c);
    }
  }

  /** Of those still being read, exactly the late and the overwritten ones outlive the
      teardown. */
  lemma OutlivesExactly(max: int, steps: seq<Step>, states: seq<Session>, n: nat, c: nat)
    requires IsRun(max, steps, states) && n < |states| && 1 <= c <= states[n].gen && states[n].closed
    requires forall t :: 0 <= t < |states[n].threads| ==> !StillClosing(states[n].threads[t])
    requires c !in states[n].lost
    ensures c !in states[n].shut <==>
            exists i :: 0 <= i < n && (InstallsLate(states[i], steps[i], c) || Replaces(states[i], steps[i], c))
  {
    NeverClosedExactly(max, steps, states, n, c);
    RunIsChronicle(max, steps, states);
    forall i | 0 <= i < n
      ensures !Drops(states[i], steps[i], c)
    {
      AccountedAt(steps, states, i);
      NumbersGrow(steps, states, i, n);
    }
  }

  // ----- One writer at a time

  predicate InPush(thread: Thread) {
    IsPush(thread) || IsConnect(thread)
  }

  ghost predicate OneWriter(s: Session) {
    forall t, u :: 0 <= t < |s.threads| && 0 <= u < |s.threads| && InPush(s.threads[t]) && InPush(s.threads[u]) ==> t == u
  }

  /** A push that is dialing found no connection, and there still is none. */
  ghost predicate NoneMeanwhile(s: Session) {
    forall t :: 0 <= t < |s.threads| && Dialing(s.threads[t]) ==> s.conn == 0
  }

  predicate Dialing(thread: Thread) {
    thread.Backoff? || thread.Dial? || thread.Install?
  }

  lemma PushNoneMeanwhile(max: int, s: Session, t: nat, answer: Answer)
    requires t < |s.threads| && IsPush(s.threads[t]) && NoneMeanwhile(s)
    ensures NoneMeanwhile(PushSection(max, s, t, answer))
  {
    PushIsPrivate(max, s, t, answer);
    PushKeepsConn(max, s, t, answer);
  }

  lemma InstallNoneMeanwhile(s: Session, t: nat, retry: bool)
    requires t < |s.threads| && s.threads[t] == Install(retry) && OneWriter(s)
    ensures NoneMeanwhile(InstallSection(s, t, retry))
  {
    var s' := InstallSection(s, t, retry);
    assert InPush(s.threads[t]);
    forall u | 0 <= u < |s'.threads|
      ensures !Dialing(s'.threads[u])
    {
      assert u != t ==> !InPush(s.threads[u]);
    }
  }

  lemma WorkerNoneMeanwhile(s: Session, t: nat, answer: Answer)
    requires t < |s.threads| && IsWorker(s.threads[t]) && NoneMeanwhile(s)
    ensures NoneMeanwhile(WorkerSection(s, t, answer))
  {
    WorkerIsPrivate(s, t, answer);
    WorkerKeepsConnections(s, t, answer);
  }

  lemma TeardownNoneMeanwhile(s: Session, t: nat)
    requires t < |s.threads| && IsTeardown(s.threads[t]) && NoneMeanwhile(s)
    ensures NoneMeanwhile(TeardownSection(s, t))
  {
  }

  lemma StepNoneMeanwhile(max: int, s: Session, step: Step)
    requires Enabled(s, step) && OneWriter(s) && NoneMeanwhile(s)
    ensures NoneMeanwhile(Apply(max, s, step))
  {
    if step.Move? {
      var (t, answer) := (step.t, step.answer);
      if IsPush(s.threads[t]) {
        PushNoneMeanwhile(max, s, t, answer);
      } else if s.threads[t].Install? {
        InstallNoneMeanwhile(s, t, s.threads[t].retry);
      } else if IsTeardown(s.threads[t]) {
        TeardownNoneMeanwhile(s, t);
      } else if IsWorker(s.threads[t]) {
        WorkerNoneMeanwhile(s, t, answer);
      }
    }
  }

  lemma {:induction false} WriterFindsNone(max: int, steps: seq<Step>, states: seq<Session>, n: nat)
    requires IsRun(max, steps, states) && n < |states| && forall i :: 0 <= i < n ==> OneWriter(states[i])
    ensures NoneMeanwhile(states[n])
  {
    if n > 0 {
      WriterFindsNone(max, steps, states, n - 1);
      RunsAccount(max, steps, states, n - 1);
      StepNoneMeanwhile(max, states[n - 1], steps[n - 1]);
    }
  }

  /** With the one concurrent writer that StreamSession asks for, no install overwrites a
      connection, and what outlives the teardown is what was dialed across the close. */
  lemma OneWriterOutlives(max: int, steps: seq<Step>, states: seq<Session>, n: nat, c: nat)
    requires IsRun(max, steps, states) && n < |states| && 1 <= c <= states[n].gen && states[n].closed
    requires forall t :: 0 <= t < |states[n].threads| ==> !StillClosing(states[n].threads[t])
    requires c !in states[n].lost && forall i :: 0 <= i < n ==> OneWriter(states[i])
    ensures forall i :: 0 <= i < n ==> !Replaces(states[i], steps[i], c)
    ensures c !in states[n].shut <==> exists i :: 0 <= i < n && InstallsLate(states[i], steps[i], c)
  {
    OutlivesExactly(max, steps, states, n, c);
    forall i | 0 <= i < n
      ensures !Replaces(states[i], steps[i], c)
    {
      WriterFindsNone(max, steps, states, i);
    }
  }

  // It happens with two: both pushes find no connection and dial, the second install
  // overwrites the first, and Close then waits for a reader whose connection it has not
  // closed.

  ghost predicate Reaches(steps: seq<Step>, states: seq<Session>, s: Session) {
    IsRun(3, steps, states) && states[|steps|] == s
  }

  lemma Extend(steps: seq<Step>, states: seq<Session>, s: Session, step: Step)
    returns (steps': seq<Step>, states': seq<Session>)
    requires Reaches(steps, states, s) && Enabled(s, step)
    ensures Reaches(steps', states', Apply(3, s, step))
  {
    steps', states' := steps + [step], states + [Apply(3, s, step)];
    forall i | 0 <= i < |steps'|
      ensures Enabled(states'[i], steps'[i]) && states'[i + 1] == Apply(3, states'[i], steps'[i])
    {
      if i < |steps| {
        assert Enabled(states[i], steps[i]) && states[i + 1] == Apply(3, states[i], steps[i]);
      }
    }
  }

  const FINDING := OPENED.(threads := [Ensure(false), Ensure(false)])
  const DIALED := OPENED.(threads := [Install(false), Install(false)])
  const ONCE := OPENED.(conn := 1, gen := 1, connectedOnce := true, breakerSettled := true, reporter := 0)
  const OVER := ONCE.(conn := 2, gen := 2, threads := [ReportSuccess(false, 1), Spawn(false, 2)])
  const TOLD := OVER.(reports := [Success])
  const READ := TOLD.(workerWG := 4, threads := [Write(false), Write(false), Reading(1), KeepAlive, Reading(2), KeepAlive])
  const IDLE := READ.(threads := [Finished, Finished, Reading(1), KeepAlive, Reading(2), KeepAlive])
  const SHUTTING := IDLE.(conn := 0, taken := 2, closed := true, owner := 6)
  const WAITING := SHUTTING.(cancelled := true, shut := {2}, threads := IDLE.threads + [AwaitWorkers])
  const QUIET := WAITING.(workerWG := 2, threads := [Finished, Finished, Reading(1), Finished, Reading(2), Finished, AwaitWorkers])
  const STUCK := QUIET.(lost := {2}, workerWG := 1,
                        threads := [Finished, Finished, Reading(1), Finished, Finished, Finished, AwaitWorkers])

  lemma BothFindNone() returns (steps: seq<Step>, states: seq<Session>)
    ensures Reaches(steps, states, FINDING)
  {
    steps, states := [], [OPENED];
    steps, states := Extend(steps, states, OPENED, CallPush);
    steps, states := Extend(steps, states, OPENED.(threads := [Push]), CallPush);
    steps, states := Extend(steps, states, OPENED.(threads := [Push, Push]), Move(0, Works));
    steps, states := Extend(steps, states, OPENED.(threads := [Ensure(false), Push]), Move(1, Works));
  }

  lemma BothDial(steps: seq<Step>, states: seq<Session>) returns (steps': seq<Step>, states': seq<Session>)
    requires Reaches(steps, states, FINDING)
    ensures Reaches(steps', states', DIALED)
  {
    steps', states' := Extend(steps, states, FINDING, Move(0, Works));
    steps', states' := Extend(steps', states', OPENED.(threads := [Dial(false), Ensure(false)]), Move(1, Works));
    steps', states' := Extend(steps', states', OPENED.(threads := [Dial(false), Dial(false)]), Move(0, Works));
    steps', states' := Extend(steps', states', OPENED.(threads := [Install(false), Dial(false)]), Move(1, Works));
  }

  lemma BothInstall(steps: seq<Step>, states: seq<Session>) returns (steps': seq<Step>, states': seq<Session>)
    requires Reaches(steps, states, DIALED)
    ensures Reaches(steps', states', OVER)
  {
    steps', states' := Extend(steps, states, DIALED, Move(0, Works));
    steps', states' := Extend(steps', states', ONCE.(threads := [ReportSuccess(false, 1), Install(false)]), Move(1, Works));
  }

  lemma BothSpawn(steps: seq<Step>, states: seq<Session>) returns (steps': seq<Step>, states': seq<Session>)
    requires Reaches(steps, states, OVER)
    ensures Reaches(steps', states', READ)
  {
    steps', states' := Extend(steps, states, OVER, Move(0, Works));
    steps', states' := Extend(steps', states', TOLD.(threads := [Spawn(false, 1), Spawn(false, 2)]), Move(0, Works));
    var first := TOLD.(workerWG := 2, threads := [Write(false), Spawn(false, 2), Reading(1), KeepAlive]);
    steps', states' := Extend(steps', states', first, Move(1, Works));
  }

  lemma BothWrite(steps: seq<Step>, states: seq<Session>) returns (steps': seq<Step>, states': seq<Session>)
    requires Reaches(steps, states, READ)
    ensures Reaches(steps', states', IDLE)
  {
    steps', states' := Extend(steps, states, READ, Move(0, Works));
    steps', states' := Extend(steps', states', READ.(threads := READ.threads[0 := Finished]), Move(1, Works));
  }

  lemma CloseComes(steps: seq<Step>, states: seq<Session>) returns (steps': seq<Step>, states': seq<Session>)
    requires Reaches(steps, states, IDLE)
    ensures Reaches(steps', states', SHUTTING.(threads := IDLE.threads + [Settle(None, ByClose)]))
  {
    steps', states' := Extend(steps, states, IDLE, CallClose);
    steps', states' := Extend(steps', states', IDLE.(threads := IDLE.threads + [Close]), Move(6, Works));
  }

  lemma CloseGoesOn(steps: seq<Step>, states: seq<Session>) returns (steps': seq<Step>, states': seq<Session>)
    requires Reaches(steps, states, SHUTTING.(threads := IDLE.threads + [Settle(None, ByClose)]))
    ensures Reaches(steps', states', WAITING)
  {
    steps', states' := Extend(steps, states, SHUTTING.(threads := IDLE.threads + [Settle(None, ByClose)]), Move(6, Works));
    steps', states' := Extend(steps', states', SHUTTING.(threads := IDLE.threads + [Cancel(ByClose)]), Move(6, Works));
  }

  lemma KeepAlivesEnd(steps: seq<Step>, states: seq<Session>) returns (steps': seq<Step>, states': seq<Session>)
    requires Reaches(steps, states, WAITING)
    ensures Reaches(steps', states', QUIET)
  {
    var three := WAITING.(workerWG := 3, threads := WAITING.threads[3 := Finished]);
    steps', states' := Extend(steps, states, WAITING, Move(3, Works));
    steps', states' := Extend(steps', states', WAITING.(threads := WAITING.threads[3 := WorkerDone]), Move(3, Works));
    steps', states' := Extend(steps', states', three, Move(5, Works));
    steps', states' := Extend(steps', states', three.(threads := three.threads[5 := WorkerDone]), Move(5, Works));
  }

  lemma SecondReaderEnds(steps: seq<Step>, states: seq<Session>) returns (steps': seq<Step>, states': seq<Session>)
    requires Reaches(steps, states, QUIET)
    ensures Reaches(steps', states', STUCK)
  {
    var lost := QUIET.(lost := {2});
    steps', states' := Extend(steps, states, QUIET, Move(4, Fails(Interrupted)));
    steps', states' := Extend(steps', states', lost.(threads := lost.threads[4 := Lost(2)]), Move(4, Works));
    steps', states' := Extend(steps', states', lost.(threads := lost.threads[4 := WorkerDone]), Move(4, Works));
  }

  /** Connection 1 is unclosed and still read although no dial came back late, and Close
      cannot go on before that reader ends. */
  lemma OverwrittenConnectionIsLeft() returns (steps: seq<Step>, states: seq<Session>, n: nat)
    ensures IsRun(3, steps, states) && n == |steps|
    ensures var s := states[n];
            && s.closed && s.conn == 0 && 1 !in s.shut && 1 !in s.lost
            && |s.threads| == 7 && s.threads[2] == Reading(1) && s.threads[6].AwaitWorkers?
            && forall answer :: !MayMove(s, s.threads[6], answer)
    ensures forall i :: 0 <= i < n ==> !ConnectsLate(states[i], steps[i])
    ensures exists i :: 0 <= i < n && Replaces(states[i], steps[i], 1)
  {
    steps, states := BothFindNone();
    steps, states := BothDial(steps, states);
    steps, states := BothInstall(steps, states);
    steps, states := BothSpawn(steps, states);
    steps, states := BothWrite(steps, states);
    steps, states := CloseComes(steps, states);
    steps, states := CloseGoesOn(steps, states);
    steps, states := KeepAlivesEnd(steps, states);
    steps, states := SecondReaderEnds(steps, states);
    n := |steps|;
    HoldsConnIffConnectedLate(3, steps, states, n);
    OutlivesExactly(3, steps, states, n, 1);
  }
}
