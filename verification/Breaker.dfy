/** The circuit breaker of pkg/asr/circuitbreaker.go (pkg/translate's is the same code). */
module Breaker {
  /** In milliseconds. */
  type Time = int

  const DEFAULT_THRESHOLD := 5
  /** Ten seconds. */
  const DEFAULT_COOLDOWN := 10_000

  datatype State = State(open: bool, fails: nat, openUntil: Time, probe: bool)

  const CLOSED := State(false, 0, 0, false)

  function Admits(s: State, now: Time): bool {
    !s.open || (s.openUntil <= now && !s.probe)
  }

  function Failure(s: State, threshold: int, cooldown: int, now: Time): State {
    var n := s.fails + 1;
    if s.open || n >= threshold then State(true, n, now + cooldown, false) else State(false, n, s.openUntil, false)
  }

  /** A call on the breaker, each one lock section. */
  datatype Call = AllowAt(now: Time) | Succeed | FailAt(now: Time) | Abandon

  function Do(threshold: int, cooldown: int, s: State, call: Call): State {
    match call
    case AllowAt(now) => s.(probe := s.probe || (s.open && Admits(s, now)))
    case Succeed => State(false, 0, s.openUntil, false)
    case FailAt(now) => Failure(s, threshold, cooldown, now)
    case Abandon => s.(probe := false)
  }

  class CircuitBreaker {
    const threshold: int
    const cooldown: int
    var open: bool
    var consecutiveFails: nat
    var openUntil: Time
    var probeInFlight: bool

    function Abs(): State
      reads this
    {
      State(open, consecutiveFails, openUntil, probeInFlight)
    }

    constructor (threshold: int, cooldown: int)
      ensures this.threshold == (if threshold <= 0 then DEFAULT_THRESHOLD else threshold)
      ensures this.cooldown == (if cooldown <= 0 then DEFAULT_COOLDOWN else cooldown)
      ensures Abs() == CLOSED
    {
      this.threshold := if threshold <= 0 then DEFAULT_THRESHOLD else threshold;
      this.cooldown := if cooldown <= 0 then DEFAULT_COOLDOWN else cooldown;
      open, consecutiveFails, openUntil, probeInFlight := false, 0, 0, false;
    }

    method Allow(now: Time) returns (ok: bool)
      modifies this
      ensures ok == Admits(old(Abs()), now)
      ensures Abs() == Do(threshold, cooldown, old(Abs()), AllowAt(now))
    {
      if !open {
        return true;
      }
      if now < openUntil {
        return false;
      }
      if probeInFlight {
        return false;
      }
      probeInFlight := true;
      return true;
    }

    method RecordSuccess()
      modifies this
      ensures Abs() == Do(threshold, cooldown, old(Abs()), Succeed)
    {
      consecutiveFails := 0;
      open := false;
      probeInFlight := false;
    }

    method RecordFailure(now: Time)
      modifies this
      ensures Abs() == Do(threshold, cooldown, old(Abs()), FailAt(now))
    {
      probeInFlight := false;
      consecutiveFails := consecutiveFails + 1;
      if open || consecutiveFails >= threshold {
        open := true;
        openUntil := now + cooldown;
      }
    }

    method Abort()
      modifies this
      ensures Abs() == Do(threshold, cooldown, old(Abs()), Abandon)
    {
      probeInFlight := false;
    }
  }

  // ----- Whole runs: the calls of all users of the breaker, in the order of its lock

  function After(threshold: int, cooldown: int, calls: seq<Call>): State {
    if calls == [] then CLOSED
    else Do(threshold, cooldown, After(threshold, cooldown, calls[..|calls| - 1]), calls[|calls| - 1])
  }

  /** The failures recorded since the last success. */
  function Streak(calls: seq<Call>): nat {
    if calls == [] || calls[|calls| - 1].Succeed? then 0
    else Streak(calls[..|calls| - 1]) + (if calls[|calls| - 1].FailAt? then 1 else 0)
  }

  /** The breaker is open exactly when the failures since the last success reach the threshold. */
  lemma {:induction false} OpenIffStreakReaches(threshold: int, cooldown: int, calls: seq<Call>)
    requires threshold > 0
    ensures After(threshold, cooldown, calls).fails == Streak(calls)
    ensures After(threshold, cooldown, calls).open <==> Streak(calls) >= threshold
  {
    if calls != [] {
      OpenIffStreakReaches(threshold, cooldown, calls[..|calls| - 1]);
    }
  }

  /** The i-th call is an allow that returned true. */
  predicate Admitted(threshold: int, cooldown: int, calls: seq<Call>, i: nat)
    requires i < |calls|
  {
    calls[i].AllowAt? && Admits(After(threshold, cooldown, calls[..i]), calls[i].now)
  }

  predicate Settles(c: Call) {
    !c.AllowAt?
  }

  /** The i-th call is admitted to an open breaker. */
  predicate Probe(threshold: int, cooldown: int, calls: seq<Call>, i: nat)
    requires i < |calls|
  {
    Admitted(threshold, cooldown, calls, i) && After(threshold, cooldown, calls[..i]).open
  }

  /** Some probe has had no call settle since, its own or another. */
  ghost predicate Unsettled(threshold: int, cooldown: int, calls: seq<Call>) {
    exists i :: 0 <= i < |calls| && Probe(threshold, cooldown, calls, i) && forall k :: i < k < |calls| ==> !Settles(calls[k])
  }

  lemma ProbeOfPrefix(threshold: int, cooldown: int, calls: seq<Call>, n: nat, i: nat)
    requires i < n <= |calls|
    ensures Probe(threshold, cooldown, calls[..n], i) == Probe(threshold, cooldown, calls, i)
  {
    assert calls[..n][..i] == calls[..i];
  }

  lemma {:induction false} UnsettledStep(threshold: int, cooldown: int, calls: seq<Call>)
    requires calls != []
    ensures var (init, last) := (calls[..|calls| - 1], calls[|calls| - 1]);
            Unsettled(threshold, cooldown, calls) <==>
            !Settles(last) && (Unsettled(threshold, cooldown, init) || Probe(threshold, cooldown, calls, |calls| - 1))
  {
    var n := |calls| - 1;
    var (init, last) := (calls[..n], calls[n]);
    if Unsettled(threshold, cooldown, calls) {
      var i :| 0 <= i < |calls| && Probe(threshold, cooldown, calls, i) && forall k :: i < k < |calls| ==> !Settles(calls[k]);
      if i < n {
        assert !Settles(calls[n]);
        ProbeOfPrefix(threshold, cooldown, calls, n, i);
      }
    }
    if !Settles(last) && Unsettled(threshold, cooldown, init) {
      var i :| 0 <= i < |init| && Probe(threshold, cooldown, init, i) && forall k :: i < k < |init| ==> !Settles(init[k]);
      ProbeOfPrefix(threshold, cooldown, calls, n, i);
      assert forall k :: i < k < n ==> calls[k] == init[k];
    }
  }

  /** The marker is set exactly while no call has settled since some probe. */
  lemma {:induction false} MarkerExactly(threshold: int, cooldown: int, calls: seq<Call>)
    ensures After(threshold, cooldown, calls).probe <==> Unsettled(threshold, cooldown, calls)
  {
    if calls != [] {
      MarkerExactly(threshold, cooldown, calls[..|calls| - 1]);
      UnsettledStep(threshold, cooldown, calls);
    }
  }

  /** An allow is answered yes exactly if the breaker is closed, or it has cooled down and
      since every earlier probe some call has settled. */
  lemma AdmittedExactly(threshold: int, cooldown: int, calls: seq<Call>, j: nat)
    requires j < |calls| && calls[j].AllowAt?
    ensures var s := After(threshold, cooldown, calls[..j]);
            Admitted(threshold, cooldown, calls, j) <==>
            !s.open || (s.openUntil <= calls[j].now &&
                        forall i :: 0 <= i < j && Probe(threshold, cooldown, calls, i) ==> exists k :: i < k < j && Settles(calls[k]))
  {
    var before := calls[..j];
    MarkerExactly(threshold, cooldown, before);
    forall i | 0 <= i < j
      ensures Probe(threshold, cooldown, before, i) == Probe(threshold, cooldown, calls, i)
    {
      ProbeOfPrefix(threshold, cooldown, calls, j, i);
    }
    assert forall k :: 0 <= k < j ==> before[k] == calls[k];
  }

  /** Between two admissions to an open breaker some call is settled or aborted. */
  lemma OneProbeAtATime(threshold: int, cooldown: int, calls: seq<Call>, i: nat, j: nat)
    requires i < j < |calls| && Probe(threshold, cooldown, calls, i) && Probe(threshold, cooldown, calls, j)
    ensures exists k :: i < k < j && Settles(calls[k])
  {
    AdmittedExactly(threshold, cooldown, calls, j);
  }

  // ----- Who settles

  /** of[k] is the call whose allow the k-th call settles: an admitted one, earlier, and
      not settled before. */
  ghost predicate Paired(threshold: int, cooldown: int, calls: seq<Call>, of: seq<nat>) {
    && |of| == |calls|
    && (forall k :: 0 <= k < |calls| && Settles(calls[k]) ==> of[k] < k && Admitted(threshold, cooldown, calls, of[k]))
    && (forall k, l :: 0 <= k < l < |calls| && Settles(calls[k]) && Settles(calls[l]) ==> of[k] != of[l])
  }

  /** The call admitted at i has not settled by n. */
  ghost predicate Outstanding(threshold: int, cooldown: int, calls: seq<Call>, of: seq<nat>, i: nat, n: nat)
    requires |of| == |calls| && i < n <= |calls|
  {
    Admitted(threshold, cooldown, calls, i) && forall k :: i < k < n && Settles(calls[k]) ==> of[k] != i
  }

  /** Only a settlement changes whether the breaker is open. */
  lemma {:induction false} OpenLasts(threshold: int, cooldown: int, calls: seq<Call>, i: nat, m: nat)
    requires i <= m <= |calls| && forall k :: i <= k < m ==> !Settles(calls[k])
    ensures After(threshold, cooldown, calls[..m]).open == After(threshold, cooldown, calls[..i]).open
  {
    if i < m {
      OpenLasts(threshold, cooldown, calls, i, m - 1);
      assert calls[..m][..m - 1] == calls[..m - 1];
    }
  }

  /** Nothing is admitted after a probe until some call settles. */
  lemma NoneAdmittedMeanwhile(threshold: int, cooldown: int, calls: seq<Call>, i: nat, m: nat)
    requires i < m < |calls| && Probe(threshold, cooldown, calls, i) && forall k :: i < k < m ==> !Settles(calls[k])
    ensures !Admitted(threshold, cooldown, calls, m)
  {
    OpenLasts(threshold, cooldown, calls, i, m);
    if calls[m].AllowAt? {
      AdmittedExactly(threshold, cooldown, calls, m);
    }
  }

  lemma FirstSettlement(calls: seq<Call>, i: nat, j: nat) returns (k: nat)
    requires i < j <= |calls| && exists l :: i < l < j && Settles(calls[l])
    ensures i < k < j && Settles(calls[k]) && forall l :: i < l < k ==> !Settles(calls[l])
  {
    k := i + 1;
    while !Settles(calls[k])
      invariant i < k < j && forall l :: i < l < k ==> !Settles(calls[l])
      decreases j - k
    {
      assert exists l :: i < l < j && Settles(calls[l]);
      k := k + 1;
    }
  }

  /** Whatever is admitted while a probe is still out was let in because a call admitted
      before that probe settled. */
  lemma LetInByEarlierCall(threshold: int, cooldown: int, calls: seq<Call>, of: seq<nat>, i: nat, j: nat)
    requires Paired(threshold, cooldown, calls, of) && i < j < |calls| && Admitted(threshold, cooldown, calls, j)
    requires Probe(threshold, cooldown, calls, i) && Outstanding(threshold, cooldown, calls, of, i, j)
    ensures exists k :: i < k < j && Settles(calls[k]) && of[k] < i
  {
    if forall l :: i < l < j ==> !Settles(calls[l]) {
      NoneAdmittedMeanwhile(threshold, cooldown, calls, i, j);
    }
    var k := FirstSettlement(calls, i, j);
    assert of[k] != i && Admitted(threshold, cooldown, calls, of[k]);
    if i < of[k] {
      NoneAdmittedMeanwhile(threshold, cooldown, calls, i, of[k]);
    }
  }

  lemma SettlementLetsIn(threshold: int, cooldown: int, calls: seq<Call>, i: nat, j: nat, k: nat)
    requires i < k < j < |calls| && Settles(calls[k])
    requires forall m :: i < m < j ==> !Probe(threshold, cooldown, calls, m)
    requires calls[j].AllowAt? && After(threshold, cooldown, calls[..j]).open
    requires After(threshold, cooldown, calls[..j]).openUntil <= calls[j].now
    ensures Probe(threshold, cooldown, calls, j)
  {
    forall m | 0 <= m < j && Probe(threshold, cooldown, calls, m)
      ensures exists l :: m < l < j && Settles(calls[l])
    {
      assert m < k < j && Settles(calls[k]);
    }
    AdmittedExactly(threshold, cooldown, calls, j);
  }

  /** The exact condition: while the latest probe is still out, an allow to the open and
      cooled-down breaker makes a second probe outstanding beside it if and only if
      another call has settled meanwhile. */
  lemma SecondProbeExactly(threshold: int, cooldown: int, calls: seq<Call>, of: seq<nat>, i: nat, j: nat)
    requires Paired(threshold, cooldown, calls, of) && i < j < |calls|
    requires Probe(threshold, cooldown, calls, i) && Outstanding(threshold, cooldown, calls, of, i, j)
    requires forall m :: i < m < j ==> !Probe(threshold, cooldown, calls, m)
    requires calls[j].AllowAt? && After(threshold, cooldown, calls[..j]).open
    requires After(threshold, cooldown, calls[..j]).openUntil <= calls[j].now
    ensures Probe(threshold, cooldown, calls, j) && Outstanding(threshold, cooldown, calls, of, i, j + 1)
            && Outstanding(threshold, cooldown, calls, of, j, j + 1)
            <==> exists k :: i < k < j && Settles(calls[k]) && of[k] != i
  {
    if Probe(threshold, cooldown, calls, j) {
      LetInByEarlierCall(threshold, cooldown, calls, of, i, j);
    }
    if k: nat :| i < k < j && Settles(calls[k]) && of[k] != i {
      SettlementLetsIn(threshold, cooldown, calls, i, j, k);
    }
  }

  const TWO_PROBES := [AllowAt(0), AllowAt(0), FailAt(0), AllowAt(1), Abandon, AllowAt(1)]

  /** It happens: call 0 fails and opens the breaker, call 3 probes, call 1, admitted
      before that, gives up, and call 5 probes too. */
  lemma TwoProbesOutstanding()
    ensures var of := [0, 0, 0, 0, 1, 0];
            && Paired(1, 1, TWO_PROBES, of)
            && Probe(1, 1, TWO_PROBES, 3) && Outstanding(1, 1, TWO_PROBES, of, 3, 6)
            && Probe(1, 1, TWO_PROBES, 5) && Outstanding(1, 1, TWO_PROBES, of, 5, 6)
  {
    var calls := TWO_PROBES;
    assert calls[..0] == [];
    assert calls[..1][..0] == [];
    assert calls[..2][..1] == calls[..1];
    assert calls[..3][..2] == calls[..2];
    assert calls[..4][..3] == calls[..3];
    assert calls[..5][..4] == calls[..4];
    assert After(1, 1, calls[..1]) == CLOSED;
    assert After(1, 1, calls[..2]) == CLOSED;
    assert After(1, 1, calls[..3]) == State(true, 1, 1, false);
    assert After(1, 1, calls[..4]) == State(true, 1, 1, true);
    assert After(1, 1, calls[..5]) == State(true, 1, 1, false);
    assert Admitted(1, 1, calls, 0) && Admitted(1, 1, calls, 1);
  }

  /** While open the breaker admits nothing before the cooldown after the last failure. */
  lemma {:induction false} CoolsDown(threshold: int, cooldown: int, calls: seq<Call>, i: nat)
    requires i < |calls| && Admitted(threshold, cooldown, calls, i) && After(threshold, cooldown, calls[..i]).open
    ensures calls[i].now >= LastFailure(calls[..i], -cooldown) + cooldown
  {
    LastFailureOpens(threshold, cooldown, calls[..i]);
  }

  function LastFailure(calls: seq<Call>, none: Time): Time {
    if calls == [] then none
    else if calls[|calls| - 1].FailAt? then calls[|calls| - 1].now
    else LastFailure(calls[..|calls| - 1], none)
  }

  lemma {:induction false} LastFailureOpens(threshold: int, cooldown: int, calls: seq<Call>)
    requires After(threshold, cooldown, calls).open
    ensures After(threshold, cooldown, calls).openUntil == LastFailure(calls, -cooldown) + cooldown
  {
    var init := calls[..|calls| - 1];
    if !calls[|calls| - 1].FailAt? {
      LastFailureOpens(threshold, cooldown, init);
    }
  }
}
