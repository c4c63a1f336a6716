/** What holds of rooms over whole runs, and two things that do not. */
module RoomRuns {
  import opened Rooms

  ghost predicate IsRun(cfg: Config, steps: seq<Step>, states: seq<Manager>) {
    && |states| == |steps| + 1
    && states[0] == INITIAL
    && forall i :: 0 <= i < |steps| ==> Enabled(states[i], steps[i]) && states[i + 1] == Apply(cfg, states[i], steps[i])
  }

  lemma {:induction false} RunsAreSound(cfg: Config, steps: seq<Step>, states: seq<Manager>, n: nat)
    requires IsRun(cfg, steps, states) && n < |states|
    ensures Sound(cfg, states[n])
  {
    if n > 0 {
      RunsAreSound(cfg, steps, states, n - 1);
      StepSound(cfg, states[n - 1], steps[n - 1]);
    }
  }

  /** Each id has at most one open room, and that is the one stored; so nobody ever
      deletes an open room, however late it comes. */
  lemma OneOpenRoomPerId(cfg: Config, steps: seq<Step>, states: seq<Manager>, n: nat, r: nat)
    requires IsRun(cfg, steps, states) && n < |states| && r < |states[n].heap| && !states[n].heap[r].closed
    ensures states[n].heap[r].id in states[n].rooms && states[n].rooms[states[n].heap[r].id] == r
  {
    RunsAreSound(cfg, steps, states, n);
  }

  lemma RoomsWithinLimit(cfg: Config, steps: seq<Step>, states: seq<Manager>, n: nat)
    requires IsRun(cfg, steps, states) && n < |states| && cfg.maxRooms > 0
    ensures |states[n].rooms| <= cfg.maxRooms
  {
    RunsAreSound(cfg, steps, states, n);
  }

  lemma NextGrows(cfg: Config, steps: seq<Step>, states: seq<Manager>, k: nat)
    requires IsRun(cfg, steps, states) && k + 1 < |states|
    ensures Grows(states[k], states[k + 1])
  {
    RunsAreSound(cfg, steps, states, k);
    StepSound(cfg, states[k], steps[k]);
  }

  lemma GrowsOn(a: Manager, b: Manager, c: Manager)
    requires Grows(a, b) && Grows(b, c)
    ensures Grows(a, c)
  {
  }

  lemma {:induction false} RoomsPersist(cfg: Config, steps: seq<Step>, states: seq<Manager>, m: nat, n: nat)
    requires IsRun(cfg, steps, states) && m <= n < |states|
    ensures Grows(states[m], states[n])
  {
    if m < n {
      RoomsPersist(cfg, steps, states, m, n - 1);
      NextGrows(cfg, steps, states, n - 1);
      GrowsOn(states[m], states[n - 1], states[n]);
    }
  }

  /** A closed room never reopens, and its session is closed at most once. */
  lemma ClosedForGood(cfg: Config, steps: seq<Step>, states: seq<Manager>, m: nat, n: nat, r: nat)
    requires IsRun(cfg, steps, states) && m <= n < |states| && r < |states[m].heap|
    ensures r < |states[n].heap| && (states[m].heap[r].closed ==> states[n].heap[r].closed)
    ensures states[n].heap[r].sessionCloses <= (if states[n].heap[r].closed then 1 else 0)
  {
    RoomsPersist(cfg, steps, states, m, n);
    RunsAreSound(cfg, steps, states, n);
  }

  // ----- A closed room may have a peer

  predicate Haunted(room: Room) {
    room.closed && !Empty(room)
  }

  /** A join reaches the room it was given after that room was closed. */
  predicate AddsToClosed(m: Manager, step: Step) {
    && step.Move? && step.works && step.t < |m.threads| && m.threads[step.t].JoinAdding?
    && var (r, role) := (m.threads[step.t].r, m.threads[step.t].role);
       r < |m.heap| && m.heap[r].closed && !Has(m.heap[r], role)
  }

  lemma AddAt(m: Manager, t: nat, x: nat, role: Role, works: bool, r: nat)
    requires t < |m.threads| && x < |m.heap| && r < |m.heap|
    ensures Haunted(Add(m, t, x, role, works).heap[r]) <==>
            Haunted(m.heap[r]) || (r == x && works && m.heap[x].closed && !Has(m.heap[x], role))
  {
  }

  lemma RemoveAt(m: Manager, t: nat, id: Id, x: nat, role: Role, r: nat)
    requires t < |m.threads| && x < |m.heap| && r < |m.heap|
    ensures Haunted(Remove(m, t, id, x, role).heap[r]) <==> Haunted(m.heap[r])
  {
  }

  lemma ExpireAt(m: Manager, t: nat, id: Id, x: nat, r: nat)
    requires t < |m.threads| && x < |m.heap| && r < |m.heap|
    ensures Haunted(Expire(m, t, id, x).heap[r]) <==> Haunted(m.heap[r])
  {
  }

  lemma SectionAt(cfg: Config, m: Manager, t: nat, works: bool, r: nat)
    requires t < |m.threads| && InHeap(m, m.threads[t]) && r < |m.heap|
    requires !m.threads[t].JoinAdding? && !m.threads[t].LeaveRemoving? && !m.threads[t].ExpireChecking?
    ensures r < |Section(cfg, m, t, works).heap| && (Haunted(Section(cfg, m, t, works).heap[r]) <==> Haunted(m.heap[r]))
  {
  }

  /** Joining late is the only way a closed room gets a peer, and none ever leaves it. */
  lemma StepAt(cfg: Config, m: Manager, step: Step, r: nat)
    requires Enabled(m, step) && r < |m.heap|
    ensures r < |Apply(cfg, m, step).heap|
    ensures Haunted(Apply(cfg, m, step).heap[r]) <==> Haunted(m.heap[r]) || (AddsToClosed(m, step) && m.threads[step.t].r == r)
  {
    if step.Move? {
      var (t, works) := (step.t, step.works);
      match m.threads[t]
      case JoinAdding(_, role, x) => AddAt(m, t, x, role, works, r);
      case LeaveRemoving(id, role, _, x) => RemoveAt(m, t, id, x, role, r);
      case ExpireChecking(id, x) => ExpireAt(m, t, id, x, r);
      case _ => SectionAt(cfg, m, t, works, r);
    }
  }

  lemma NewRoomsAreOpen(cfg: Config, m: Manager, step: Step)
    requires Enabled(m, step)
    ensures forall r :: |m.heap| <= r < |Apply(cfg, m, step).heap| ==> !Apply(cfg, m, step).heap[r].closed
  {
  }

  /** A join adds to room r after it was closed. */
  predicate AddsLate(m: Manager, step: Step, r: nat) {
    AddsToClosed(m, step) && m.threads[step.t].r == r
  }

  lemma NextHaunts(cfg: Config, steps: seq<Step>, states: seq<Manager>, k: nat, r: nat)
    requires IsRun(cfg, steps, states) && k < |steps| && r < |states[k + 1].heap|
    ensures r < |states[k].heap| ==>
              (Haunted(states[k + 1].heap[r]) <==> Haunted(states[k].heap[r]) || AddsLate(states[k], steps[k], r))
    ensures r >= |states[k].heap| ==> !Haunted(states[k + 1].heap[r]) && !AddsLate(states[k], steps[k], r)
  {
    if r < |states[k].heap| {
      StepAt(cfg, states[k], steps[k], r);
    } else {
      NewRoomsAreOpen(cfg, states[k], steps[k]);
    }
  }

  /** The exact condition: in a run a given closed room has a peer if and only if some
      join added one to it without looking at the closed flag again. */
  lemma {:induction false} HauntedIffAddedLate(cfg: Config, steps: seq<Step>, states: seq<Manager>, n: nat, r: nat)
    requires IsRun(cfg, steps, states) && n < |states| && r < |states[n].heap|
    ensures Haunted(states[n].heap[r]) <==> exists i :: 0 <= i < n && AddsLate(states[i], steps[i], r)
  {
    if n > 0 {
      NextHaunts(cfg, steps, states, n - 1, r);
      if r < |states[n - 1].heap| {
        HauntedIffAddedLate(cfg, steps, states, n - 1, r);
      } else {
        forall i | 0 <= i < n
          ensures !AddsLate(states[i], steps[i], r)
        {
          RoomsPersist(cfg, steps, states, i, n - 1);
        }
      }
    }
  }

  // It does happen: the idle timeout closes the room between the two lock sections of
  // the only join, which then puts its peer into the dead room.
  const CALL := "room"
  const EMPTY_ROOM := Room(CALL, Vacant, Vacant, false, false, false, 0, -1)
  const ARMED := EMPTY_ROOM.(timer := true, armed := true)
  const FIRED := ARMED.(armed := false)
  const EXPIRED := FIRED.(closed := true, closer := 1)
  const IDLE_ROOMS := Config(0, true)

  const EXPIRY_STEPS := [CallJoin(CALL, Caller), Move(0, true), Move(0, true), Fire(0), Move(1, true), Move(0, true)]

  const EXPIRY_STATES := [
    INITIAL,
    Manager(map[], [], [JoinLookup(CALL, Caller)]),
    Manager(map[CALL := 0], [EMPTY_ROOM], [JoinArming(CALL, Caller, 0)]),
    Manager(map[CALL := 0], [ARMED], [JoinAdding(CALL, Caller, 0)]),
    Manager(map[CALL := 0], [FIRED], [JoinAdding(CALL, Caller, 0), ExpireChecking(CALL, 0)]),
    Manager(map[CALL := 0], [EXPIRED], [JoinAdding(CALL, Caller, 0), Deleting(CALL, 0)]),
    Manager(map[CALL := 0], [EXPIRED.(caller := Peer(0))], [Finished, Deleting(CALL, 0)])]

  ghost predicate Expires(i: nat)
    requires i < 6
  {
    && Enabled(EXPIRY_STATES[i], EXPIRY_STEPS[i])
    && EXPIRY_STATES[i + 1] == Apply(IDLE_ROOMS, EXPIRY_STATES[i], EXPIRY_STEPS[i])
  }

  lemma JoinBegins()
    ensures Expires(0) && Expires(1) && Expires(2)
  {
  }

  lemma TimerFires()
    ensures Expires(3) && Expires(4) && Expires(5)
  {
  }

  lemma JoinIntoClosedRoom()
    ensures IsRun(IDLE_ROOMS, EXPIRY_STEPS, EXPIRY_STATES) && Haunted(EXPIRY_STATES[6].heap[0])
  {
    forall i | 0 <= i < |EXPIRY_STEPS|
      ensures && Enabled(EXPIRY_STATES[i], EXPIRY_STEPS[i])
              && EXPIRY_STATES[i + 1] == Apply(IDLE_ROOMS, EXPIRY_STATES[i], EXPIRY_STEPS[i])
    {
      if i < 3 {
        JoinBegins();
      } else {
        TimerFires();
      }
      assert Expires(i);
    }
  }

  // ----- A late leave may close a newer room

  /** Which room a leave works on is decided by its lookup alone: the peer's own room
      while that is open, and otherwise whatever is stored under the id by then. */
  lemma LeaveReaches(cfg: Config, steps: seq<Step>, states: seq<Manager>, n: nat, t: nat, own: nat)
    requires IsRun(cfg, steps, states) && n < |steps| && steps[n].Move? && steps[n].t == t
    requires states[n].threads[t].LeaveLookup? && own < |states[n].heap|
    requires states[n].heap[own].id == states[n].threads[t].id
    ensures var (m, id) := (states[n], states[n].threads[t].id);
            && (states[n + 1].threads[t].LeaveRemoving? <==> id in m.rooms)
            && (id in m.rooms ==> states[n + 1].threads[t].r == m.rooms[id])
            && (!m.heap[own].closed ==> states[n + 1].threads[t].LeaveRemoving? && states[n + 1].threads[t].r == own)
  {
    RunsAreSound(cfg, steps, states, n);
  }

  /** It closes that room exactly if the room is open and its other slot is empty, and
      touches no other room. */
  lemma LeaveCloses(m: Manager, t: nat, id: Id, r: nat, role: Role, x: nat)
    requires t < |m.threads| && r < |m.heap| && x < |m.heap|
    ensures var m' := Remove(m, t, id, r, role);
            && (x != r ==> m'.heap[x] == m.heap[x])
            && (!m.heap[r].closed ==>
                  (m'.heap[r].closed <==> !Has(m.heap[r], if role.Caller? then Agent else Caller)) && !Has(m'.heap[r], role))
            && (m.heap[r].closed ==> m'.heap == m.heap)
  {
  }

  /** An expiry closes exactly an open room that is not full, empties it and touches no
      other. */
  lemma ExpiryCloses(m: Manager, t: nat, id: Id, r: nat, x: nat)
    requires t < |m.threads| && r < |m.heap| && x < |m.heap|
    ensures var (was, m') := (m.heap[r], Expire(m, t, id, r));
            var spared := was.closed || Full(was);
            && (x != r || spared ==> m'.heap[x] == m.heap[x])
            && (!spared ==> m'.heap[r].closed && Empty(m'.heap[r]))
  {
  }

  /** A join takes a free slot and never displaces a peer; the join that fills the room
      stops its timer if there is one. */
  lemma JoinTakesFreeSlot(m: Manager, t: nat, r: nat, role: Role, works: bool, x: nat)
    requires t < |m.threads| && r < |m.heap| && x < |m.heap|
    ensures var (was, m') := (m.heap[r], Add(m, t, r, role, works));
            var other := if role.Caller? then Agent else Caller;
            && (x != r || Has(was, role) || !works ==> m'.heap[x] == m.heap[x])
            && SlotOf(m'.heap[r], other) == SlotOf(was, other) && m'.heap[r].closed == was.closed
            && SlotOf(m'.heap[r], role) == (if works && !Has(was, role) then Peer(t) else SlotOf(was, role))
            && (works && !Has(was, role) && Has(was, other) && was.timer ==> !m'.heap[r].armed && !m'.heap[r].timer)
  {
  }

  /** What closes a room: a step does exactly if it is a leave that empties it, or an
      expiry that finds it not full. */
  predicate Closes(m: Manager, step: Step, r: nat)
    requires r < |m.heap|
  {
    && step.Move? && step.t < |m.threads|
    && match m.threads[step.t]
       case LeaveRemoving(_, role, _, x) => x == r && !Has(m.heap[r], if role.Caller? then Agent else Caller)
       case ExpireChecking(_, x) => x == r && !Full(m.heap[r])
       case _ => false
  }

  lemma OthersDoNotClose(cfg: Config, m: Manager, t: nat, works: bool, r: nat)
    requires t < |m.threads| && InHeap(m, m.threads[t]) && r < |m.heap| && !m.heap[r].closed
    requires !m.threads[t].LeaveRemoving? && !m.threads[t].ExpireChecking?
    ensures r < |Section(cfg, m, t, works).heap| && !Section(cfg, m, t, works).heap[r].closed
  {
  }

  lemma ClosesExactly(cfg: Config, m: Manager, step: Step, r: nat)
    requires Enabled(m, step) && r < |m.heap| && !m.heap[r].closed
    ensures r < |Apply(cfg, m, step).heap| && (Apply(cfg, m, step).heap[r].closed <==> Closes(m, step, r))
  {
    if step.Move? {
      var (t, works) := (step.t, step.works);
      match m.threads[t]
      case LeaveRemoving(id, role, _, x) => LeaveCloses(m, t, id, x, role, r);
      case ExpireChecking(id, x) => ExpiryCloses(m, t, id, x, r);
      case _ => OthersDoNotClose(cfg, m, t, works, r);
    }
  }

  /** In every run a room holding both peers survives the next step, whatever it is. */
  lemma FullRoomStaysOpen(cfg: Config, steps: seq<Step>, states: seq<Manager>, n: nat, r: nat)
    requires IsRun(cfg, steps, states) && n < |steps| && r < |states[n].heap|
    requires !states[n].heap[r].closed && Full(states[n].heap[r])
    ensures r < |states[n + 1].heap| && !states[n + 1].heap[r].closed
  {
    ClosesExactly(cfg, states[n], steps[n], r);
  }

  // The whole of a leave, from its lookup to its removal.

  predicate PastRemoval(thread: Thread) {
    thread.LeaveStopping? || thread.Deleting? || thread.Closing? || thread.Finished?
  }

  lemma RemovalIsLast(cfg: Config, m: Manager, step: Step, t: nat)
    requires Enabled(m, step) && t < |m.threads|
    ensures var m' := Apply(cfg, m, step);
            && t < |m'.threads|
            && (PastRemoval(m.threads[t]) ==> PastRemoval(m'.threads[t]))
            && (m.threads[t].LeaveRemoving? ==> m'.threads[t] == m.threads[t] || PastRemoval(m'.threads[t]))
  {
  }

  lemma {:induction false} RemovalKeepsRoom(cfg: Config, steps: seq<Step>, states: seq<Manager>, k: nat, j: nat, t: nat)
    requires IsRun(cfg, steps, states) && k <= j < |states| && t < |states[k].threads|
    requires states[k].threads[t].LeaveRemoving? || PastRemoval(states[k].threads[t])
    ensures t < |states[j].threads| && (states[j].threads[t] == states[k].threads[t] || PastRemoval(states[j].threads[t]))
  {
    if k < j {
      RemovalKeepsRoom(cfg, steps, states, k, j - 1, t);
      RemovalIsLast(cfg, states[j - 1], steps[j - 1], t);
    }
  }

  /** The exact condition, over runs: of a leave that looks up at step i and removes at
      step j on behalf of a peer of room `own`, the removal closes room x if and only if x
      is what the lookup found stored and x is by then open with its other slot empty. If
      that is another room than `own`, then `own` had been closed before the lookup. */
  lemma LateLeaveExactly(cfg: Config, steps: seq<Step>, states: seq<Manager>, i: nat, j: nat, t: nat, own: nat, x: nat)
    requires IsRun(cfg, steps, states) && i < j < |steps|
    requires steps[i].Move? && steps[i].t == t && states[i].threads[t].LeaveLookup?
    requires steps[j].Move? && steps[j].t == t && t < |states[j].threads| && states[j].threads[t].LeaveRemoving?
    requires own < |states[i].heap| && states[i].heap[own].id == states[i].threads[t].id
    requires x < |states[j].heap| && !states[j].heap[x].closed
    ensures var (id, role) := (states[i].threads[t].id, states[i].threads[t].role);
            && x < |states[j + 1].heap|
            && (states[j + 1].heap[x].closed <==>
                  id in states[i].rooms && states[i].rooms[id] == x &&
                  !Has(states[j].heap[x], if role.Caller? then Agent else Caller))
            && (states[j + 1].heap[x].closed && x != own ==> states[i].heap[own].closed)
  {
    LeaveReaches(cfg, steps, states, i, t, own);
    LookupKeepsRole(cfg, states[i], steps[i], t);
    RemovalKeepsRoom(cfg, steps, states, i + 1, j, t);
    ClosesExactly(cfg, states[j], steps[j], x);
  }

  lemma LookupKeepsRole(cfg: Config, m: Manager, step: Step, t: nat)
    requires Enabled(m, step) && step.Move? && step.t == t && m.threads[t].LeaveLookup?
    ensures var next := Apply(cfg, m, step).threads[t];
            if m.threads[t].id in m.rooms then next == LeaveRemoving(m.threads[t].id, m.threads[t].role, m.threads[t].own, m.rooms[m.threads[t].id])
            else next.Finished?
  {
  }

  // A call ends and both of its notices, the signaling connection's and the peer
  // connection's, call leave; between the two a new call begins under the same id.
  const IN_USE := EMPTY_ROOM.(caller := Peer(0))
  const NEXT_IN_USE := EMPTY_ROOM.(caller := Peer(3))
  const OVER := EMPTY_ROOM.(closed := true, closer := 1)
  const CUT_OFF := EMPTY_ROOM.(closed := true, closer := 2)
  const ANY_ROOMS := Config(0, false)

  const LATE_STEPS := [
    CallJoin(CALL, Caller), Move(0, true), Move(0, true), CallLeave(CALL, Caller, 0), CallLeave(CALL, Caller, 0),
    Move(1, true), Move(1, true), Move(1, true),
    CallJoin(CALL, Caller), Move(3, true), Move(3, true),
    Move(2, true), Move(2, true), Move(2, true)]

  const LATE_STATES := [
    INITIAL,
    Manager(map[], [], [JoinLookup(CALL, Caller)]),
    Manager(map[CALL := 0], [EMPTY_ROOM], [JoinAdding(CALL, Caller, 0)]),
    Manager(map[CALL := 0], [IN_USE], [Finished]),
    Manager(map[CALL := 0], [IN_USE], [Finished, LeaveLookup(CALL, Caller, 0)]),
    Manager(map[CALL := 0], [IN_USE], [Finished, LeaveLookup(CALL, Caller, 0), LeaveLookup(CALL, Caller, 0)]),
    Manager(map[CALL := 0], [IN_USE], [Finished, LeaveRemoving(CALL, Caller, 0, 0), LeaveLookup(CALL, Caller, 0)]),
    Manager(map[CALL := 0], [OVER], [Finished, Deleting(CALL, 0), LeaveLookup(CALL, Caller, 0)]),
    Manager(map[], [OVER], [Finished, Closing(0), LeaveLookup(CALL, Caller, 0)]),
    Manager(map[], [OVER], [Finished, Closing(0), LeaveLookup(CALL, Caller, 0), JoinLookup(CALL, Caller)]),
    Manager(map[CALL := 1], [OVER, EMPTY_ROOM], [Finished, Closing(0), LeaveLookup(CALL, Caller, 0), JoinAdding(CALL, Caller, 1)]),
    Manager(map[CALL := 1], [OVER, NEXT_IN_USE], [Finished, Closing(0), LeaveLookup(CALL, Caller, 0), Finished]),
    Manager(map[CALL := 1], [OVER, NEXT_IN_USE], [Finished, Closing(0), LeaveRemoving(CALL, Caller, 0, 1), Finished]),
    Manager(map[CALL := 1], [OVER, CUT_OFF], [Finished, Closing(0), Deleting(CALL, 1), Finished]),
    Manager(map[], [OVER, CUT_OFF], [Finished, Closing(0), Closing(1), Finished])]

  ghost predicate Follows(i: nat)
    requires i < 14
  {
    Enabled(LATE_STATES[i], LATE_STEPS[i]) && LATE_STATES[i + 1] == Apply(ANY_ROOMS, LATE_STATES[i], LATE_STEPS[i])
  }

  lemma FirstCall()
    ensures Follows(0) && Follows(1)
  {
  }

  lemma FirstPeer()
    ensures Follows(2)
  {
  }

  lemma TwoNotices()
    ensures Follows(3) && Follows(4)
  {
  }

  lemma FirstLeave()
    ensures Follows(5) && Follows(6) && Follows(7)
  {
  }

  lemma SecondCall()
    ensures Follows(8) && Follows(9) && Follows(10)
  {
  }

  lemma SecondLeave()
    ensures Follows(11) && Follows(12) && Follows(13)
  {
  }

  lemma AllFollow(i: nat)
    requires i < 14
    ensures Follows(i)
  {
    if i < 2 {
      FirstCall();
    } else if i < 3 {
      FirstPeer();
    } else if i < 5 {
      TwoNotices();
    } else if i < 8 {
      FirstLeave();
    } else if i < 11 {
      SecondCall();
    } else {
      SecondLeave();
    }
  }

  lemma LateRun()
    ensures IsRun(ANY_ROOMS, LATE_STEPS, LATE_STATES)
  {
    forall i | 0 <= i < |LATE_STEPS|
      ensures Enabled(LATE_STATES[i], LATE_STEPS[i]) && LATE_STATES[i + 1] == Apply(ANY_ROOMS, LATE_STATES[i], LATE_STEPS[i])
    {
      AllFollow(i);
    }
  }

  /** The second leave of the first peer closes and deletes the room of the second. */
  lemma LateLeaveClosesNewerRoom()
    ensures IsRun(ANY_ROOMS, LATE_STEPS, LATE_STATES)
    ensures LATE_STEPS[4] == CallLeave(CALL, Caller, 0) && |LATE_STATES[4].heap| == 1
    ensures LATE_STATES[11].heap[1] == NEXT_IN_USE && LATE_STATES[14].heap[1].closed && CALL !in LATE_STATES[14].rooms
    ensures LATE_STATES[14].heap[1].closer == 2
  {
    LateRun();
  }
}
