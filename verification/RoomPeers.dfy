/** Which peers leaves and expiries throw out of rooms, over whole runs. */
module RoomPeers {
  import opened Rooms
  import opened RoomRuns

  // ----- How a slot changes

  /** A leave takes peer p out of room r. */
  predicate TakesOut(m: Manager, step: Step, r: nat, role: Role, p: nat) {
    && step.Move? && step.t < |m.threads| && m.threads[step.t].LeaveRemoving?
    && m.threads[step.t].r == r && m.threads[step.t].role == role
    && r < |m.heap| && !m.heap[r].closed && SlotOf(m.heap[r], role) == Peer(p)
  }

  /** A join puts its peer into room r. */
  predicate PutsIn(m: Manager, step: Step, r: nat, role: Role, p: nat) {
    && step.Move? && step.t == p < |m.threads| && m.threads[p].JoinAdding? && step.works
    && m.threads[p].r == r && m.threads[p].role == role
    && r < |m.heap| && SlotOf(m.heap[r], role) == Vacant
  }

  lemma AddSlot(m: Manager, t: nat, x: nat, whose: Role, works: bool, r: nat, role: Role)
    requires t < |m.threads| && x < |m.heap| && r < |m.heap|
    ensures SlotOf(Add(m, t, x, whose, works).heap[r], role) ==
            if x == r && whose == role && works && !Has(m.heap[r], role) then Peer(t) else SlotOf(m.heap[r], role)
  {
  }

  lemma RemoveSlot(m: Manager, t: nat, id: Id, x: nat, whose: Role, r: nat, role: Role)
    requires t < |m.threads| && x < |m.heap| && r < |m.heap|
    ensures SlotOf(Remove(m, t, id, x, whose).heap[r], role) ==
            if x == r && whose == role && !m.heap[r].closed then Vacant else SlotOf(m.heap[r], role)
  {
  }

  lemma OtherSlots(cfg: Config, m: Manager, t: nat, works: bool, r: nat)
    requires t < |m.threads| && InHeap(m, m.threads[t]) && r < |m.heap|
    requires !m.threads[t].JoinAdding? && !m.threads[t].LeaveRemoving? && !m.threads[t].ExpireChecking?
    ensures r < |Section(cfg, m, t, works).heap|
    ensures forall role :: SlotOf(Section(cfg, m, t, works).heap[r], role) == SlotOf(m.heap[r], role)
  {
  }

  /** A peer is in a slot if it was, and was neither taken out nor thrown out by the
      closing of the room, or if it has just been put in. */
  lemma SlotExactly(cfg: Config, m: Manager, step: Step, r: nat, role: Role, p: nat)
    requires Enabled(m, step) && r < |m.heap|
    ensures r < |Apply(cfg, m, step).heap|
    ensures SlotOf(Apply(cfg, m, step).heap[r], role) == Peer(p) <==>
            PutsIn(m, step, r, role, p) ||
            (SlotOf(m.heap[r], role) == Peer(p) && !TakesOut(m, step, r, role, p) && !(!m.heap[r].closed && Closes(m, step, r)))
  {
    if step.Move? {
      var (t, works) := (step.t, step.works);
      match m.threads[t]
      case JoinAdding(_, whose, x) => AddSlot(m, t, x, whose, works, r, role);
      case LeaveRemoving(id, whose, _, x) => RemoveSlot(m, t, id, x, whose, r, role);
      case ExpireChecking(id, x) => ExpiryCloses(m, t, id, x, r);
      case _ => OtherSlots(cfg, m, t, works, r);
    }
  }

  lemma NewRoomsAreVacant(cfg: Config, m: Manager, step: Step)
    requires Enabled(m, step)
    ensures forall r, role :: |m.heap| <= r < |Apply(cfg, m, step).heap| ==> SlotOf(Apply(cfg, m, step).heap[r], role) == Vacant
  {
  }

  // ----- A peer joins once

  ghost predicate JoinedOnce(m: Manager, r: nat, role: Role, p: nat)
    requires r < |m.heap|
  {
    SlotOf(m.heap[r], role) == Peer(p) ==>
      && p < |m.threads| && m.threads[p].Finished?
      && forall x, other :: 0 <= x < |m.heap| && SlotOf(m.heap[x], other) == Peer(p) ==> x == r && other == role
  }

  ghost predicate AllJoinedOnce(m: Manager) {
    forall r, role, p :: 0 <= r < |m.heap| ==> JoinedOnce(m, r, role, p)
  }

  lemma FinishedStays(cfg: Config, m: Manager, step: Step, p: nat)
    requires Enabled(m, step) && p < |m.threads| && m.threads[p].Finished?
    ensures p < |Apply(cfg, m, step).threads| && Apply(cfg, m, step).threads[p].Finished?
  {
  }

  lemma PutInFinishes(cfg: Config, m: Manager, step: Step, r: nat, role: Role, p: nat)
    requires Enabled(m, step) && PutsIn(m, step, r, role, p)
    ensures p < |Apply(cfg, m, step).threads| && Apply(cfg, m, step).threads[p].Finished?
  {
  }

  /** Where a peer was before a step that leaves it in a room. */
  lemma SlotBefore(cfg: Config, m: Manager, step: Step, r: nat, role: Role, p: nat)
    requires Enabled(m, step) && r < |Apply(cfg, m, step).heap| && SlotOf(Apply(cfg, m, step).heap[r], role) == Peer(p)
    ensures r < |m.heap| && (PutsIn(m, step, r, role, p) || SlotOf(m.heap[r], role) == Peer(p))
  {
    if r < |m.heap| {
      SlotExactly(cfg, m, step, r, role, p);
    } else {
      NewRoomsAreVacant(cfg, m, step);
    }
  }

  lemma StepJoinsOnce(cfg: Config, m: Manager, step: Step, r: nat, role: Role, p: nat)
    requires Enabled(m, step) && AllJoinedOnce(m) && r < |Apply(cfg, m, step).heap|
    ensures JoinedOnce(Apply(cfg, m, step), r, role, p)
  {
    var m' := Apply(cfg, m, step);
    if SlotOf(m'.heap[r], role) == Peer(p) {
      SlotBefore(cfg, m, step, r, role, p);
      assert JoinedOnce(m, r, role, p);
      if PutsIn(m, step, r, role, p) {
        PutInFinishes(cfg, m, step, r, role, p);
      } else {
        FinishedStays(cfg, m, step, p);
      }
      forall x, other | 0 <= x < |m'.heap| && SlotOf(m'.heap[x], other) == Peer(p)
        ensures x == r && other == role
      {
        SlotBefore(cfg, m, step, x, other, p);
        assert JoinedOnce(m, x, other, p);
      }
    }
  }

  lemma {:induction false} RunJoinsOnce(cfg: Config, steps: seq<Step>, states: seq<Manager>, n: nat)
    requires IsRun(cfg, steps, states) && n < |states|
    ensures AllJoinedOnce(states[n])
  {
    if n > 0 {
      RunJoinsOnce(cfg, steps, states, n - 1);
      forall r: nat, role, p: nat | r < |states[n].heap|
        ensures JoinedOnce(states[n], r, role, p)
      {
        StepJoinsOnce(cfg, states[n - 1], steps[n - 1], r, role, p);
      }
    }
  }

  lemma {:induction false} FinishedForGood(cfg: Config, steps: seq<Step>, states: seq<Manager>, k: nat, j: nat, p: nat)
    requires IsRun(cfg, steps, states) && k <= j < |states| && p < |states[k].threads| && states[k].threads[p].Finished?
    ensures p < |states[j].threads| && states[j].threads[p].Finished?
  {
    if k < j {
      FinishedForGood(cfg, steps, states, k, j - 1, p);
      FinishedStays(cfg, states[j - 1], steps[j - 1], p);
    }
  }

  lemma NotPutInAgain(cfg: Config, steps: seq<Step>, states: seq<Manager>, k: nat, j: nat, r: nat, role: Role, p: nat)
    requires IsRun(cfg, steps, states) && k <= j < |steps|
    requires r < |states[k].heap| && SlotOf(states[k].heap[r], role) == Peer(p)
    ensures forall x, other :: !PutsIn(states[j], steps[j], x, other, p)
  {
    RunJoinsOnce(cfg, steps, states, k);
    assert JoinedOnce(states[k], r, role, p);
    FinishedForGood(cfg, steps, states, k, j, p);
  }

  // ----- A leave may take out another peer than its own

  ghost predicate TakenOut(steps: seq<Step>, states: seq<Manager>, k: nat, j: nat, r: nat, role: Role, p: nat)
    requires k <= j < |states| == |steps| + 1
  {
    exists l :: k <= l < j && TakesOut(states[l], steps[l], r, role, p)
  }

  lemma TakenOutNext(steps: seq<Step>, states: seq<Manager>, k: nat, j: nat, r: nat, role: Role, p: nat)
    requires k < j < |states| == |steps| + 1
    ensures TakenOut(steps, states, k, j, r, role, p) <==>
            TakenOut(steps, states, k, j - 1, r, role, p) || TakesOut(states[j - 1], steps[j - 1], r, role, p)
  {
  }

  lemma NextInSlot(
    cfg: Config, steps: seq<Step>, states: seq<Manager>, k: nat, j: nat, r: nat, role: Role, p: nat, out: bool)
    requires IsRun(cfg, steps, states) && k < j < |states| && r < |states[k].heap| && r < |states[j - 1].heap|
    requires SlotOf(states[k].heap[r], role) == Peer(p)
    requires InSlotUnless(states[j - 1], r, role, p, out)
    ensures InSlotUnless(states[j], r, role, p, out || TakesOut(states[j - 1], steps[j - 1], r, role, p))
  {
    NextGrows(cfg, steps, states, j - 1);
    NotPutInAgain(cfg, steps, states, k, j - 1, r, role, p);
    StepInSlot(cfg, states[j - 1], steps[j - 1], r, role, p, out);
  }

  /** While room r is open peer p is in its slot unless it has been taken out. */
  ghost predicate InSlotUnless(m: Manager, r: nat, role: Role, p: nat, out: bool) {
    r < |m.heap| && (!m.heap[r].closed ==> (SlotOf(m.heap[r], role) == Peer(p) <==> !out))
  }

  lemma StepInSlot(cfg: Config, m: Manager, step: Step, r: nat, role: Role, p: nat, out: bool)
    requires Enabled(m, step) && Grows(m, Apply(cfg, m, step)) && !PutsIn(m, step, r, role, p)
    requires InSlotUnless(m, r, role, p, out)
    ensures InSlotUnless(Apply(cfg, m, step), r, role, p, out || TakesOut(m, step, r, role, p))
  {
    SlotExactly(cfg, m, step, r, role, p);
    if !m.heap[r].closed {
      ClosesExactly(cfg, m, step, r);
    }
  }

  /** While its room is open a peer loses its slot only to a leave, and never gets it back. */
  lemma {:induction false} InSlotUnlessTakenOut(
    cfg: Config, steps: seq<Step>, states: seq<Manager>, k: nat, j: nat, r: nat, role: Role, p: nat)
    requires IsRun(cfg, steps, states) && k <= j < |states|
    requires r < |states[k].heap| && SlotOf(states[k].heap[r], role) == Peer(p)
    ensures InSlotUnless(states[j], r, role, p, TakenOut(steps, states, k, j, r, role, p))
  {
    if k < j {
      InSlotUnlessTakenOut(cfg, steps, states, k, j - 1, r, role, p);
      NextInSlot(cfg, steps, states, k, j, r, role, p, TakenOut(steps, states, k, j - 1, r, role, p));
      TakenOutNext(steps, states, k, j, r, role, p);
    }
  }

  lemma InSlotBefore(cfg: Config, steps: seq<Step>, states: seq<Manager>, j: nat, x: nat, role: Role, p: nat)
    requires IsRun(cfg, steps, states) && 0 < j < |states| && x < |states[j].heap|
    requires SlotOf(states[j].heap[x], role) == Peer(p) && !PutsIn(states[j - 1], steps[j - 1], x, role, p)
    ensures x < |states[j - 1].heap| && SlotOf(states[j - 1].heap[x], role) == Peer(p)
  {
    SlotBefore(cfg, states[j - 1], steps[j - 1], x, role, p);
  }

  lemma {:induction false} InNoOtherRoom(cfg: Config, steps: seq<Step>, states: seq<Manager>, k: nat, j: nat, r: nat, x: nat, role: Role, p: nat)
    requires IsRun(cfg, steps, states) && k <= j < |states| && r < |states[k].heap| && x < |states[j].heap| && x != r
    requires SlotOf(states[k].heap[r], role) == Peer(p)
    ensures SlotOf(states[j].heap[x], role) != Peer(p)
    decreases j - k
  {
    if k == j {
      RunJoinsOnce(cfg, steps, states, j);
      assert JoinedOnce(states[j], r, role, p);
    } else if SlotOf(states[j].heap[x], role) == Peer(p) {
      NotPutInAgain(cfg, steps, states, k, j - 1, r, role, p);
      InSlotBefore(cfg, steps, states, j, x, role, p);
      InNoOtherRoom(cfg, steps, states, k, j - 1, r, x, role, p);
    }
  }

  /** The exact condition, over runs: of a leave called for peer p, in the given slot of
      room own at state k, that looks up at step i and removes at step j, the peer it takes
      out is another one if and only if it works on another room than own, or an earlier
      leave has taken p out. It works on another room only if own was closed by then. */
  lemma WrongPeerExactly(
    cfg: Config, steps: seq<Step>, states: seq<Manager>, k: nat, i: nat, j: nat, t: nat, own: nat, x: nat, role: Role, p: nat)
    requires IsRun(cfg, steps, states) && k <= i < j < |steps| && own < |states[k].heap|
    requires SlotOf(states[k].heap[own], role) == Peer(p)
    requires steps[i].Move? && steps[i].t == t && states[i].threads[t] == LeaveLookup(states[k].heap[own].id, role, p)
    requires steps[j].Move? && steps[j].t == t && t < |states[j].threads| && states[j].threads[t].LeaveRemoving?
    requires x == states[j].threads[t].r && x < |states[j].heap| && !states[j].heap[x].closed && Has(states[j].heap[x], role)
    ensures SlotOf(states[j].heap[x], role) != Peer(p) <==> x != own || TakenOut(steps, states, k, j, own, role, p)
    ensures TakesOut(states[j], steps[j], x, role, SlotOf(states[j].heap[x], role).joined)
    ensures x != own ==> own < |states[i].heap| && states[i].heap[own].closed
  {
    RoomsPersist(cfg, steps, states, k, i);
    LeaveReaches(cfg, steps, states, i, t, own);
    LookupKeepsRole(cfg, states[i], steps[i], t);
    RemovalKeepsRoom(cfg, steps, states, i + 1, j, t);
    if x == own {
      InSlotUnlessTakenOut(cfg, steps, states, k, j, own, role, p);
    } else {
      InNoOtherRoom(cfg, steps, states, k, j, own, x, role, p);
    }
  }

  // ----- An expiry may close a room that has been full

  predicate TakesAny(m: Manager, step: Step, r: nat) {
    && step.Move? && step.t < |m.threads| && m.threads[step.t].LeaveRemoving? && m.threads[step.t].r == r
    && r < |m.heap| && !m.heap[r].closed && Has(m.heap[r], m.threads[step.t].role)
  }

  ghost predicate Fills(steps: seq<Step>, states: seq<Manager>, k: nat, r: nat)
    requires k < |steps| && |states| == |steps| + 1
  {
    && r < |states[k].heap| && r < |states[k + 1].heap|
    && !Full(states[k].heap[r]) && Full(states[k + 1].heap[r])
  }

  lemma FullExactly(cfg: Config, m: Manager, step: Step, r: nat)
    requires Enabled(m, step) && r < |m.heap| && Full(m.heap[r])
    ensures r < |Apply(cfg, m, step).heap|
    ensures !Apply(cfg, m, step).heap[r].closed ==> (Full(Apply(cfg, m, step).heap[r]) <==> !TakesAny(m, step, r))
  {
    if step.Move? {
      var (t, works) := (step.t, step.works);
      match m.threads[t]
      case JoinAdding(_, whose, x) =>
        AddSlot(m, t, x, whose, works, r, Caller);
        AddSlot(m, t, x, whose, works, r, Agent);
      case LeaveRemoving(id, whose, _, x) =>
        RemoveSlot(m, t, id, x, whose, r, Caller);
        RemoveSlot(m, t, id, x, whose, r, Agent);
      case ExpireChecking(id, x) => ExpiryCloses(m, t, id, x, r);
      case _ => OtherSlots(cfg, m, t, works, r);
    }
  }

  /** While room r is open it is full unless a peer has been taken out. */
  ghost predicate FullUnless(m: Manager, r: nat, taken: bool) {
    r < |m.heap| && (!m.heap[r].closed ==> (Full(m.heap[r]) <==> !taken))
  }

  ghost predicate TakenSince(steps: seq<Step>, states: seq<Manager>, k: nat, n: nat, r: nat)
    requires n < |states| == |steps| + 1
  {
    exists l :: k < l < n && TakesAny(states[l], steps[l], r)
  }

  lemma StepFull(cfg: Config, m: Manager, step: Step, r: nat, taken: bool)
    requires Enabled(m, step) && Grows(m, Apply(cfg, m, step)) && FullUnless(m, r, taken)
    requires Full(Apply(cfg, m, step).heap[r]) ==> Full(m.heap[r])
    ensures FullUnless(Apply(cfg, m, step), r, taken || TakesAny(m, step, r))
  {
    if Full(m.heap[r]) {
      FullExactly(cfg, m, step, r);
    }
  }

  lemma NextFull(cfg: Config, steps: seq<Step>, states: seq<Manager>, n: nat, r: nat, taken: bool)
    requires IsRun(cfg, steps, states) && 0 < n < |states| && FullUnless(states[n - 1], r, taken)
    requires !Fills(steps, states, n - 1, r)
    ensures FullUnless(states[n], r, taken || TakesAny(states[n - 1], steps[n - 1], r))
  {
    NextGrows(cfg, steps, states, n - 1);
    StepFull(cfg, states[n - 1], steps[n - 1], r, taken);
  }

  lemma TakenNext(steps: seq<Step>, states: seq<Manager>, k: nat, n: nat, r: nat)
    requires k + 1 < n < |states| == |steps| + 1
    ensures TakenSince(steps, states, k, n, r) <==> TakenSince(steps, states, k, n - 1, r) || TakesAny(states[n - 1], steps[n - 1], r)
  {
  }

  /** Since it was last filled an open room is full unless a leave has taken a peer out. */
  lemma {:induction false} FullUnlessTaken(cfg: Config, steps: seq<Step>, states: seq<Manager>, k: nat, n: nat, r: nat)
    requires IsRun(cfg, steps, states) && k < n < |states| && Fills(steps, states, k, r)
    requires forall l :: k < l < n ==> !Fills(steps, states, l, r)
    ensures FullUnless(states[n], r, TakenSince(steps, states, k, n, r))
  {
    if k + 1 < n {
      FullUnlessTaken(cfg, steps, states, k, n - 1, r);
      NextFull(cfg, steps, states, n, r, TakenSince(steps, states, k, n - 1, r));
      TakenNext(steps, states, k, n, r);
    }
  }

  /** The exact condition: an expiry that comes to an open room filled before closes it if
      and only if a leave has taken a peer out since the room was last filled. */
  lemma FilledRoomExpiresExactly(cfg: Config, steps: seq<Step>, states: seq<Manager>, k: nat, n: nat, r: nat)
    requires IsRun(cfg, steps, states) && k < n < |steps| && Fills(steps, states, k, r)
    requires forall l :: k < l < n ==> !Fills(steps, states, l, r)
    requires r < |states[n].heap| && !states[n].heap[r].closed
    requires steps[n].Move? && states[n].threads[steps[n].t].ExpireChecking? && states[n].threads[steps[n].t].r == r
    ensures r < |states[n + 1].heap|
    ensures states[n + 1].heap[r].closed <==> exists l :: k < l < n && TakesAny(states[l], steps[l], r)
  {
    FullUnlessTaken(cfg, steps, states, k, n, r);
    ClosesExactly(cfg, states[n], steps[n], r);
  }

  // Where such an expiry comes from.

  predicate Arms(m: Manager, step: Step, r: nat) {
    step.Move? && step.t < |m.threads| && m.threads[step.t].JoinArming? && m.threads[step.t].r == r
  }

  /** A timer that may fire is the room's timer. */
  predicate TimedAt(m: Manager, r: nat) {
    r < |m.heap| && m.heap[r].armed ==> m.heap[r].timer
  }

  ghost predicate Timed(m: Manager) {
    forall r :: 0 <= r < |m.heap| ==> TimedAt(m, r)
  }

  /** What a section may do to the timer of room r. */
  ghost predicate KeepsTime(m: Manager, m': Manager, arms: bool, r: nat) {
    r < |m.heap| ==>
      && r < |m'.heap|
      && (TimedAt(m, r) ==> TimedAt(m', r))
      && (m'.heap[r].armed ==> m.heap[r].armed || arms)
      && (TimedAt(m, r) && !Full(m.heap[r]) && Full(m'.heap[r]) ==> !m'.heap[r].armed)
  }

  lemma AddKeepsTime(m: Manager, t: nat, x: nat, whose: Role, works: bool, r: nat)
    requires t < |m.threads| && x < |m.heap|
    ensures KeepsTime(m, Add(m, t, x, whose, works), false, r)
  {
  }

  lemma RemoveKeepsTime(m: Manager, t: nat, id: Id, x: nat, whose: Role, r: nat)
    requires t < |m.threads| && x < |m.heap|
    ensures KeepsTime(m, Remove(m, t, id, x, whose), false, r)
  {
  }

  lemma ExpireKeepsTime(m: Manager, t: nat, id: Id, x: nat, r: nat)
    requires t < |m.threads| && x < |m.heap|
    ensures KeepsTime(m, Expire(m, t, id, x), false, r)
  {
  }

  lemma LookupKeepsTime(cfg: Config, m: Manager, t: nat, id: Id, role: Role, works: bool, r: nat)
    requires t < |m.threads|
    ensures KeepsTime(m, Lookup(cfg, m, t, id, role, works), false, r)
    ensures r >= |m.heap| ==> TimedAt(Lookup(cfg, m, t, id, role, works), r)
  {
  }

  lemma OthersKeepTime(cfg: Config, m: Manager, t: nat, works: bool, r: nat)
    requires t < |m.threads| && InHeap(m, m.threads[t]) && !m.threads[t].JoinLookup?
    requires !m.threads[t].JoinAdding? && !m.threads[t].LeaveRemoving? && !m.threads[t].ExpireChecking?
    ensures KeepsTime(m, Section(cfg, m, t, works), m.threads[t].JoinArming? && m.threads[t].r == r, r)
    ensures |Section(cfg, m, t, works).heap| == |m.heap|
  {
  }

  lemma StepKeepsTime(cfg: Config, m: Manager, step: Step, r: nat)
    requires Enabled(m, step)
    ensures KeepsTime(m, Apply(cfg, m, step), Arms(m, step, r), r)
    ensures r >= |m.heap| ==> TimedAt(Apply(cfg, m, step), r)
  {
    if step.Move? {
      var (t, works) := (step.t, step.works);
      match m.threads[t]
      case JoinLookup(id, role) => LookupKeepsTime(cfg, m, t, id, role, works, r);
      case JoinAdding(_, whose, x) => AddKeepsTime(m, t, x, whose, works, r);
      case LeaveRemoving(id, whose, _, x) => RemoveKeepsTime(m, t, id, x, whose, r);
      case ExpireChecking(id, x) => ExpireKeepsTime(m, t, id, x, r);
      case _ => OthersKeepTime(cfg, m, t, works, r);
    }
  }

  lemma StepTimed(cfg: Config, m: Manager, step: Step)
    requires Enabled(m, step) && Timed(m)
    ensures Timed(Apply(cfg, m, step))
  {
    forall r | 0 <= r < |Apply(cfg, m, step).heap|
      ensures TimedAt(Apply(cfg, m, step), r)
    {
      StepKeepsTime(cfg, m, step, r);
    }
  }

  lemma {:induction false} RunTimed(cfg: Config, steps: seq<Step>, states: seq<Manager>, n: nat)
    requires IsRun(cfg, steps, states) && n < |states|
    ensures Timed(states[n])
  {
    if n > 0 {
      RunTimed(cfg, steps, states, n - 1);
      StepTimed(cfg, states[n - 1], steps[n - 1]);
    }
  }

  ghost predicate ArmedSince(steps: seq<Step>, states: seq<Manager>, k: nat, f: nat, r: nat)
    requires f < |states| == |steps| + 1
  {
    exists a :: k < a < f && Arms(states[a], steps[a], r)
  }

  lemma NextKeepsTime(cfg: Config, steps: seq<Step>, states: seq<Manager>, k: nat, r: nat)
    requires IsRun(cfg, steps, states) && k < |steps| && r < |states[k].heap|
    ensures TimedAt(states[k], r) && KeepsTime(states[k], states[k + 1], Arms(states[k], steps[k], r), r)
  {
    RunTimed(cfg, steps, states, k);
    StepKeepsTime(cfg, states[k], steps[k], r);
  }

  lemma FillingStops(steps: seq<Step>, states: seq<Manager>, k: nat, r: nat)
    requires k < |steps| && |states| == |steps| + 1 && Fills(steps, states, k, r)
    requires TimedAt(states[k], r) && KeepsTime(states[k], states[k + 1], Arms(states[k], steps[k], r), r)
    ensures !states[k + 1].heap[r].armed
  {
  }

  lemma ArmedNext(steps: seq<Step>, states: seq<Manager>, k: nat, f: nat, r: nat)
    requires k + 1 < f < |states| == |steps| + 1 && r < |states[f - 1].heap|
    requires states[f - 1].heap[r].armed ==> ArmedSince(steps, states, k, f - 1, r)
    requires KeepsTime(states[f - 1], states[f], Arms(states[f - 1], steps[f - 1], r), r)
    ensures r < |states[f].heap| && (states[f].heap[r].armed ==> ArmedSince(steps, states, k, f, r))
  {
  }

  lemma {:induction false} ArmedSinceFilled(cfg: Config, steps: seq<Step>, states: seq<Manager>, k: nat, f: nat, r: nat)
    requires IsRun(cfg, steps, states) && k < f < |states| && Fills(steps, states, k, r)
    ensures r < |states[f].heap| && (states[f].heap[r].armed ==> ArmedSince(steps, states, k, f, r))
  {
    if k + 1 == f {
      NextKeepsTime(cfg, steps, states, k, r);
      FillingStops(steps, states, k, r);
    } else {
      ArmedSinceFilled(cfg, steps, states, k, f - 1, r);
      NextKeepsTime(cfg, steps, states, f - 1, r);
      ArmedNext(steps, states, k, f, r);
    }
  }

  ghost predicate FiredAt(steps: seq<Step>, states: seq<Manager>, f: nat, t: nat, r: nat)
    requires f < |steps| && |states| == |steps| + 1
  {
    steps[f] == Fire(r) && |states[f].threads| == t && r < |states[f].heap| && states[f].heap[r].armed
  }

  lemma ExpiryBegins(cfg: Config, m: Manager, step: Step, t: nat)
    requires Enabled(m, step) && t < |Apply(cfg, m, step).threads| && Apply(cfg, m, step).threads[t].ExpireChecking?
    ensures (t < |m.threads| && m.threads[t] == Apply(cfg, m, step).threads[t]) ||
            (step == Fire(Apply(cfg, m, step).threads[t].r) && |m.threads| == t)
  {
  }

  lemma {:induction false} ExpiryFired(cfg: Config, steps: seq<Step>, states: seq<Manager>, n: nat, t: nat) returns (f: nat)
    requires IsRun(cfg, steps, states) && n < |states| && t < |states[n].threads| && states[n].threads[t].ExpireChecking?
    ensures f < n && FiredAt(steps, states, f, t, states[n].threads[t].r)
  {
    ExpiryBegins(cfg, states[n - 1], steps[n - 1], t);
    if t < |states[n - 1].threads| {
      f := ExpiryFired(cfg, steps, states, n - 1, t);
    } else {
      f := n - 1;
    }
  }

  /** Every expiry that comes to a room already filled stems from a timer that had fired
      before the filling join took the lock, or that was armed only after it. */
  lemma ExpiryPastFilling(cfg: Config, steps: seq<Step>, states: seq<Manager>, k: nat, n: nat, t: nat, r: nat)
    requires IsRun(cfg, steps, states) && k < n < |states| && Fills(steps, states, k, r)
    requires t < |states[n].threads| && states[n].threads[t].ExpireChecking? && states[n].threads[t].r == r
    ensures exists f :: 0 <= f < n && FiredAt(steps, states, f, t, r) &&
                        (f < k || exists a :: k < a < f && Arms(states[a], steps[a], r))
  {
    var f := ExpiryFired(cfg, steps, states, n, t);
    if f > k {
      ArmedSinceFilled(cfg, steps, states, k, f, r);
    }
  }

  // ----- Both happen

  ghost predicate Reaches(cfg: Config, steps: seq<Step>, states: seq<Manager>, m: Manager) {
    IsRun(cfg, steps, states) && states[|steps|] == m
  }

  lemma Extend(cfg: Config, steps: seq<Step>, states: seq<Manager>, m: Manager, step: Step)
    returns (steps': seq<Step>, states': seq<Manager>)
    requires Reaches(cfg, steps, states, m) && Enabled(m, step)
    ensures Reaches(cfg, steps', states', Apply(cfg, m, step))
    ensures |steps'| == |steps| + 1 && steps <= steps' && states <= states' && steps'[|steps|] == step
  {
    steps', states' := steps + [step], states + [Apply(cfg, m, step)];
    forall i | 0 <= i < |steps'|
      ensures Enabled(states'[i], steps'[i]) && states'[i + 1] == Apply(cfg, states'[i], steps'[i])
    {
      if i < |steps| {
        assert Enabled(states[i], steps[i]) && states[i + 1] == Apply(cfg, states[i], steps[i]);
      }
    }
  }

  const HERE := map[CALL := 0]
  const TALKING := EMPTY_ROOM.(caller := Peer(0), agent := Peer(1))
  const CALLER_LEFT := TALKING.(caller := Vacant)
  const CALLER_BACK := TALKING.(caller := Peer(4))

  lemma CallerJoins() returns (steps: seq<Step>, states: seq<Manager>)
    ensures Reaches(ANY_ROOMS, steps, states, Manager(HERE, [IN_USE], [Finished]))
  {
    steps, states := [], [INITIAL];
    steps, states := Extend(ANY_ROOMS, steps, states, INITIAL, CallJoin(CALL, Caller));
    steps, states := Extend(ANY_ROOMS, steps, states, Manager(map[], [], [JoinLookup(CALL, Caller)]), Move(0, true));
    steps, states := Extend(ANY_ROOMS, steps, states, Manager(HERE, [EMPTY_ROOM], [JoinAdding(CALL, Caller, 0)]), Move(0, true));
  }

  lemma AgentJoins(steps: seq<Step>, states: seq<Manager>) returns (steps': seq<Step>, states': seq<Manager>)
    requires Reaches(ANY_ROOMS, steps, states, Manager(HERE, [IN_USE], [Finished]))
    ensures Reaches(ANY_ROOMS, steps', states', Manager(HERE, [TALKING], [Finished, Finished]))
  {
    steps', states' := Extend(ANY_ROOMS, steps, states, Manager(HERE, [IN_USE], [Finished]), CallJoin(CALL, Agent));
    steps', states' := Extend(ANY_ROOMS, steps', states', Manager(HERE, [IN_USE], [Finished, JoinLookup(CALL, Agent)]), Move(1, true));
    steps', states' := Extend(ANY_ROOMS, steps', states', Manager(HERE, [IN_USE], [Finished, JoinChecking(CALL, Agent, 0)]), Move(1, true));
    steps', states' := Extend(ANY_ROOMS, steps', states', Manager(HERE, [IN_USE], [Finished, JoinAdding(CALL, Agent, 0)]), Move(1, true));
  }

  const NOTICE := LeaveLookup(CALL, Caller, 0)

  lemma CallerLeaves(steps: seq<Step>, states: seq<Manager>) returns (steps': seq<Step>, states': seq<Manager>)
    requires Reaches(ANY_ROOMS, steps, states, Manager(HERE, [TALKING], [Finished, Finished]))
    ensures Reaches(ANY_ROOMS, steps', states', Manager(HERE, [CALLER_LEFT], [Finished, Finished, Finished, NOTICE]))
  {
    var removing := LeaveRemoving(CALL, Caller, 0, 0);
    steps', states' := Extend(ANY_ROOMS, steps, states, Manager(HERE, [TALKING], [Finished, Finished]), CallLeave(CALL, Caller, 0));
    steps', states' := Extend(ANY_ROOMS, steps', states', Manager(HERE, [TALKING], [Finished, Finished, NOTICE]), CallLeave(CALL, Caller, 0));
    steps', states' := Extend(ANY_ROOMS, steps', states', Manager(HERE, [TALKING], [Finished, Finished, NOTICE, NOTICE]), Move(2, true));
    steps', states' := Extend(ANY_ROOMS, steps', states', Manager(HERE, [TALKING], [Finished, Finished, removing, NOTICE]), Move(2, true));
  }

  lemma NextCallerJoins(steps: seq<Step>, states: seq<Manager>) returns (steps': seq<Step>, states': seq<Manager>)
    requires Reaches(ANY_ROOMS, steps, states, Manager(HERE, [CALLER_LEFT], [Finished, Finished, Finished, NOTICE]))
    ensures Reaches(ANY_ROOMS, steps', states', Manager(HERE, [CALLER_BACK], [Finished, Finished, Finished, NOTICE, Finished]))
  {
    var before := [Finished, Finished, Finished, NOTICE];
    steps', states' := Extend(ANY_ROOMS, steps, states, Manager(HERE, [CALLER_LEFT], before), CallJoin(CALL, Caller));
    steps', states' := Extend(ANY_ROOMS, steps', states', Manager(HERE, [CALLER_LEFT], before + [JoinLookup(CALL, Caller)]), Move(4, true));
    steps', states' := Extend(ANY_ROOMS, steps', states', Manager(HERE, [CALLER_LEFT], before + [JoinChecking(CALL, Caller, 0)]), Move(4, true));
    steps', states' := Extend(ANY_ROOMS, steps', states', Manager(HERE, [CALLER_LEFT], before + [JoinAdding(CALL, Caller, 0)]), Move(4, true));
  }

  /** The second notice of the first caller takes the next caller out of the open room. */
  lemma SecondNoticeTakesNextCaller() returns (steps: seq<Step>, states: seq<Manager>, n: nat)
    ensures IsRun(ANY_ROOMS, steps, states) && n + 1 == |steps|
    ensures TakesOut(states[n], steps[n], 0, Caller, 4) && states[n].threads[steps[n].t].own == 0
    ensures Full(states[n].heap[0]) && !states[n + 1].heap[0].closed
  {
    steps, states := CallerJoins();
    steps, states := AgentJoins(steps, states);
    steps, states := CallerLeaves(steps, states);
    steps, states := NextCallerJoins(steps, states);
    var gone := [Finished, Finished, Finished];
    steps, states := Extend(ANY_ROOMS, steps, states, Manager(HERE, [CALLER_BACK], gone + [NOTICE, Finished]), Move(3, true));
    n := |steps|;
    var last := Manager(HERE, [CALLER_BACK], gone + [LeaveRemoving(CALL, Caller, 0, 0), Finished]);
    steps, states := Extend(ANY_ROOMS, steps, states, last, Move(3, true));
  }

  const LONE := ARMED.(caller := Peer(0))
  const LONE_FIRED := LONE.(armed := false)
  const FILLED := LONE_FIRED.(agent := Peer(1), timer := false)
  const LEFT_ALONE := FILLED.(agent := Vacant)

  lemma LoneCaller() returns (steps: seq<Step>, states: seq<Manager>)
    ensures Reaches(IDLE_ROOMS, steps, states, Manager(HERE, [LONE], [Finished]))
  {
    steps, states := [], [INITIAL];
    steps, states := Extend(IDLE_ROOMS, steps, states, INITIAL, CallJoin(CALL, Caller));
    steps, states := Extend(IDLE_ROOMS, steps, states, Manager(map[], [], [JoinLookup(CALL, Caller)]), Move(0, true));
    steps, states := Extend(IDLE_ROOMS, steps, states, Manager(HERE, [EMPTY_ROOM], [JoinArming(CALL, Caller, 0)]), Move(0, true));
    steps, states := Extend(IDLE_ROOMS, steps, states, Manager(HERE, [ARMED], [JoinAdding(CALL, Caller, 0)]), Move(0, true));
  }

  lemma TimerFiresFirst(steps: seq<Step>, states: seq<Manager>) returns (steps': seq<Step>, states': seq<Manager>)
    requires Reaches(IDLE_ROOMS, steps, states, Manager(HERE, [LONE], [Finished]))
    ensures Reaches(IDLE_ROOMS, steps', states',
                    Manager(HERE, [LONE_FIRED], [Finished, JoinAdding(CALL, Agent, 0), ExpireChecking(CALL, 0)]))
  {
    steps', states' := Extend(IDLE_ROOMS, steps, states, Manager(HERE, [LONE], [Finished]), CallJoin(CALL, Agent));
    steps', states' := Extend(IDLE_ROOMS, steps', states', Manager(HERE, [LONE], [Finished, JoinLookup(CALL, Agent)]), Move(1, true));
    steps', states' := Extend(IDLE_ROOMS, steps', states', Manager(HERE, [LONE], [Finished, JoinChecking(CALL, Agent, 0)]), Move(1, true));
    steps', states' := Extend(IDLE_ROOMS, steps', states', Manager(HERE, [LONE], [Finished, JoinAdding(CALL, Agent, 0)]), Fire(0));
  }

  lemma AgentComesAndGoes(steps: seq<Step>, states: seq<Manager>) returns (steps': seq<Step>, states': seq<Manager>, k: nat)
    requires Reaches(IDLE_ROOMS, steps, states,
                     Manager(HERE, [LONE_FIRED], [Finished, JoinAdding(CALL, Agent, 0), ExpireChecking(CALL, 0)]))
    ensures Reaches(IDLE_ROOMS, steps', states', Manager(HERE, [LEFT_ALONE], [Finished, Finished, ExpireChecking(CALL, 0), Finished]))
    ensures k < |steps'| && Fills(steps', states', k, 0)
  {
    var checking := ExpireChecking(CALL, 0);
    k := |steps|;
    steps', states' := Extend(IDLE_ROOMS, steps, states,
                              Manager(HERE, [LONE_FIRED], [Finished, JoinAdding(CALL, Agent, 0), checking]), Move(1, true));
    steps', states' := Extend(IDLE_ROOMS, steps', states', Manager(HERE, [FILLED], [Finished, Finished, checking]), CallLeave(CALL, Agent, 1));
    steps', states' := Extend(IDLE_ROOMS, steps', states',
                              Manager(HERE, [FILLED], [Finished, Finished, checking, LeaveLookup(CALL, Agent, 1)]), Move(3, true));
    steps', states' := Extend(IDLE_ROOMS, steps', states',
                              Manager(HERE, [FILLED], [Finished, Finished, checking, LeaveRemoving(CALL, Agent, 1, 0)]), Move(3, true));
  }

  /** A timer that fired before the second join took the lock ends a call that has been
      under way, with its caller still in the room. */
  lemma FilledRoomExpires() returns (steps: seq<Step>, states: seq<Manager>, k: nat, n: nat)
    ensures IsRun(IDLE_ROOMS, steps, states) && k < n && n + 1 == |steps| && Fills(steps, states, k, 0)
    ensures |states[n].heap| == |states[n + 1].heap| == 1
    ensures !states[n].heap[0].closed && states[n].heap[0].caller == Peer(0)
    ensures states[n + 1].heap[0].closed && Empty(states[n + 1].heap[0])
  {
    steps, states := LoneCaller();
    steps, states := TimerFiresFirst(steps, states);
    steps, states, k := AgentComesAndGoes(steps, states);
    n := |steps|;
    var last := Manager(HERE, [LEFT_ALONE], [Finished, Finished, ExpireChecking(CALL, 0), Finished]);
    steps, states := Extend(IDLE_ROOMS, steps, states, last, Move(2, true));
  }
}
