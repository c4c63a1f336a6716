/** The retry loop of Translate in pkg/translate/gpt4o.go and how it settles with the
    breaker. */
module Translate {
  import opened Breaker

  const MAX_ATTEMPTS := 3

  datatype Result = Translated(text: string) | Retryable | Permanent

  /** One pass of the loop: whether the backoff before it ran out rather than the context
      ending, what the round trip gave, and whether the context had ended by then. */
  datatype Attempt = Attempt(waited: bool, result: Result, ended: bool)

  datatype Reply = Chunk(text: string) | ContextEnded | Unsupported | CircuitOpen | Failed

  /** The attempt is made: all before it failed in a way worth retrying. */
  predicate Reached(attempts: seq<Attempt>, k: nat)
    requires k < |attempts|
  {
    && (forall j :: 0 <= j < k ==> attempts[j].result.Retryable? && !attempts[j].ended)
    && (forall j :: 1 <= j <= k ==> attempts[j].waited)
  }

  predicate Succeeds(attempts: seq<Attempt>) {
    exists k :: 0 <= k < |attempts| && Reached(attempts, k) && attempts[k].result.Translated?
  }

  /** Every attempt was made and failed in a way worth retrying, with the context alive. */
  predicate Exhausts(attempts: seq<Attempt>) {
    forall k :: 0 <= k < |attempts| ==> attempts[k].result.Retryable? && !attempts[k].ended && (k > 0 ==> attempts[k].waited)
  }

  /** The breaker sees an allow and, if that admits the call, exactly one settlement: a
      success if some attempt got through, a failure if all attempts were used up, and
      an abort in every other case, whichever way the call returns. */
  method Translate(b: CircuitBreaker, ended: bool, supported: bool, attempts: seq<Attempt>, now: Time, later: Time)
    returns (reply: Reply, calls: seq<Call>)
    requires |attempts| == MAX_ATTEMPTS
    modifies b
    ensures ended || !supported ==> calls == [] && b.Abs() == old(b.Abs()) && (reply.ContextEnded? || reply.Unsupported?)
    ensures !ended && supported && !Admits(old(b.Abs()), now) ==>
              calls == [AllowAt(now)] && b.Abs() == old(b.Abs()) && reply.CircuitOpen?
    ensures !ended && supported && Admits(old(b.Abs()), now) ==>
              && |calls| == 2 && calls[0] == AllowAt(now)
              && calls[1] == (if Succeeds(attempts) then Succeed else if Exhausts(attempts) then FailAt(later) else Abandon)
              && b.Abs() == Do(b.threshold, b.cooldown, Do(b.threshold, b.cooldown, old(b.Abs()), AllowAt(now)), calls[1])
              && (reply.Chunk? <==> Succeeds(attempts))
              && (reply.Chunk? ==> exists k :: 0 <= k < |attempts| && Reached(attempts, k) && attempts[k].result == Translated(reply.text))
              && (Exhausts(attempts) ==> reply.Failed?)
  {
    if ended {
      return ContextEnded, [];
    }
    if !supported {
      return Unsupported, [];
    }
    var ok := b.Allow(now);
    calls := [AllowAt(now)];
    if !ok {
      return CircuitOpen, calls;
    }
    var settled := false;
    reply := Failed;
    var attempt := 0;
    while attempt < MAX_ATTEMPTS
      invariant 0 <= attempt <= MAX_ATTEMPTS && !settled && reply == Failed && calls == [AllowAt(now)]
      invariant b.Abs() == Do(b.threshold, b.cooldown, old(b.Abs()), AllowAt(now))
      invariant attempt < MAX_ATTEMPTS
      invariant forall j :: 0 <= j < attempt ==> attempts[j].result.Retryable? && !attempts[j].ended
      invariant forall j :: 1 <= j < attempt ==> attempts[j].waited
      decreases MAX_ATTEMPTS - attempt
    {
      if attempt > 0 && !attempts[attempt].waited {
        reply := ContextEnded;
        break;
      }
      assert Reached(attempts, attempt);
      var result := attempts[attempt].result;
      if result.Translated? {
        b.RecordSuccess();
        settled, calls, reply := true, calls + [Succeed], Chunk(result.text);
        break;
      }
      if attempts[attempt].ended {
        reply := ContextEnded;
        break;
      }
      if !result.Retryable? || attempt == MAX_ATTEMPTS - 1 {
        if result.Retryable? {
          b.RecordFailure(later);
          settled, calls := true, calls + [FailAt(later)];
        }
        break;
      }
      attempt := attempt + 1;
    }
    if !reply.Chunk? {
      NoneAfter(attempts, attempt);
    }
    if !settled {
      b.Abort();
      calls := calls + [Abandon];
    }
  }

  /** An attempt that does not get through and is not worth retrying is the last. */
  lemma NoneAfter(attempts: seq<Attempt>, k: nat)
    requires k < |attempts|
    requires !Reached(attempts, k) || !attempts[k].result.Translated?
    requires !Reached(attempts, k) || k == |attempts| - 1 || !attempts[k].result.Retryable? || attempts[k].ended
    requires forall j :: 0 <= j < k ==> attempts[j].result.Retryable?
    ensures !Succeeds(attempts)
  {
  }
}
