/** The room lifecycle of pkg/webrtcgw/room.go: any number of joins, leaves and idle
    expiries, interleaved at every lock section. */
module Rooms {
  type Id = string

  datatype Role = Caller | Agent

  /** A peer is known by the join that added it. */
  datatype Slot = Vacant | Peer(joined: nat)

  /** `timer` is idleTimer != nil and `armed` that it may still fire. `closer` is history:
      the thread that closed the room. */
  datatype Room = Room(id: Id, caller: Slot, agent: Slot, closed: bool, timer: bool, armed: bool, sessionCloses: nat, closer: int)

  /** Where a call stands between two lock sections. A leave is called for a peer, `own`,
      but goes by id and role alone. */
  datatype Thread =
    | JoinLookup(id: Id, role: Role) | JoinChecking(id: Id, role: Role, r: nat)
    | JoinArming(id: Id, role: Role, r: nat) | JoinAdding(id: Id, role: Role, r: nat)
    | LeaveLookup(id: Id, role: Role, own: nat) | LeaveRemoving(id: Id, role: Role, own: nat, r: nat) | LeaveStopping(id: Id, r: nat)
    | ExpireChecking(id: Id, r: nat)
    | Deleting(id: Id, r: nat) | Closing(r: nat)
    | Finished

  datatype Config = Config(maxRooms: int, idle: bool)

  /** `rooms` is m.rooms; `heap` holds every Room ever made. */
  datatype Manager = Manager(rooms: map<Id, nat>, heap: seq<Room>, threads: seq<Thread>)

  const INITIAL := Manager(map[], [], [])

  /** The room a call works on exists and has the call's id. */
  predicate InHeap(m: Manager, thread: Thread) {
    match thread
    case JoinChecking(id, _, r) => r < |m.heap| && m.heap[r].id == id
    case JoinArming(id, _, r) => r < |m.heap| && m.heap[r].id == id
    case JoinAdding(id, _, r) => r < |m.heap| && m.heap[r].id == id
    case LeaveRemoving(id, _, _, r) => r < |m.heap| && m.heap[r].id == id
    case LeaveStopping(id, r) => r < |m.heap| && m.heap[r].id == id
    case ExpireChecking(id, r) => r < |m.heap| && m.heap[r].id == id
    case Deleting(id, r) => r < |m.heap| && m.heap[r].id == id
    case Closing(r) => r < |m.heap|
    case _ => true
  }

  /** `works` is the answer of the session factory or of newPeer. */
  datatype Step = CallJoin(id: Id, role: Role) | CallLeave(id: Id, role: Role, own: nat) | Fire(r: nat) | Move(t: nat, works: bool)

  /** Every unfinished call may move: the last conjunct holds in every reachable state. */
  predicate Enabled(m: Manager, step: Step) {
    match step
    case CallJoin(_, _) => true
    case CallLeave(_, _, _) => true
    case Fire(r) => r < |m.heap| && m.heap[r].armed
    case Move(t, _) => t < |m.threads| && !m.threads[t].Finished? && InHeap(m, m.threads[t])
  }

  /** Thread t moves on. */
  function Goto(m: Manager, t: nat, next: Thread): Manager
    requires t < |m.threads|
  {
    m.(threads := m.threads[t := next])
  }

  function Put(m: Manager, r: nat, room: Room): Manager
    requires r < |m.heap|
  {
    m.(heap := m.heap[r := room])
  }

  function SlotOf(room: Room, role: Role): Slot {
    if role.Caller? then room.caller else room.agent
  }

  predicate Has(room: Room, role: Role) {
    SlotOf(room, role).Peer?
  }

  function Fill(room: Room, role: Role, slot: Slot): Room {
    if role.Caller? then room.(caller := slot) else room.(agent := slot)
  }

  predicate Full(room: Room) {
    room.caller.Peer? && room.agent.Peer?
  }

  predicate Empty(room: Room) {
    room.caller.Vacant? && room.agent.Vacant?
  }

  // ----- The lock sections

  /** roomFor under m.mu. */
  function Lookup(cfg: Config, m: Manager, t: nat, id: Id, role: Role, works: bool): Manager
    requires t < |m.threads|
  {
    if id in m.rooms then Goto(m, t, JoinChecking(id, role, m.rooms[id]))
    else if cfg.maxRooms > 0 && |m.rooms| >= cfg.maxRooms then Goto(m, t, Finished)
    else if !works then Goto(m, t, Finished)
    else
      var r := |m.heap|;
      var made := m.(heap := m.heap + [Room(id, Vacant, Vacant, false, false, false, 0, -1)], rooms := m.rooms[id := r]);
      Goto(made, t, if cfg.idle then JoinArming(id, role, r) else JoinAdding(id, role, r))
  }

  /** Join under room.mu. The room's closed flag is not looked at again here. */
  function Add(m: Manager, t: nat, r: nat, role: Role, works: bool): Manager
    requires t < |m.threads| && r < |m.heap|
  {
    var room := m.heap[r];
    if Has(room, role) || !works then Goto(m, t, Finished)
    else
      var added := Fill(room, role, Peer(t));
      var stopped := if Full(added) && added.timer then added.(timer := false, armed := false) else added;
      Goto(Put(m, r, stopped), t, Finished)
  }

  /** leave under room.mu. */
  function Remove(m: Manager, t: nat, id: Id, r: nat, role: Role): Manager
    requires t < |m.threads| && r < |m.heap|
  {
    var room := m.heap[r];
    if room.closed then Goto(m, t, Finished)
    else
      var left := Fill(room, role, Vacant);
      if !Empty(left) then Goto(Put(m, r, left), t, Finished)
      else
        Goto(Put(m, r, left.(closed := true, closer := t)), t, if left.timer then LeaveStopping(id, r) else Deleting(id, r))
  }

  /** expireIncomplete under room.mu. */
  function Expire(m: Manager, t: nat, id: Id, r: nat): Manager
    requires t < |m.threads| && r < |m.heap|
  {
    var room := m.heap[r];
    if room.closed || Full(room) then Goto(m, t, Finished)
    else Goto(Put(m, r, room.(closed := true, closer := t, caller := Vacant, agent := Vacant)), t, Deleting(id, r))
  }

  /** Only this very Room is deleted. */
  function Delete(m: Manager, t: nat, id: Id, r: nat): Manager
    requires t < |m.threads|
  {
    var after := if id in m.rooms && m.rooms[id] == r then m.(rooms := m.rooms - {id}) else m;
    Goto(after, t, Closing(r))
  }

  function Section(cfg: Config, m: Manager, t: nat, works: bool): Manager
    requires t < |m.threads| && InHeap(m, m.threads[t])
  {
    match m.threads[t]
    case JoinLookup(id, role) => Lookup(cfg, m, t, id, role, works)
    case JoinChecking(id, role, r) => Goto(m, t, if m.heap[r].closed then JoinLookup(id, role) else JoinAdding(id, role, r))
    case JoinArming(id, role, r) =>
      Goto(Put(m, r, m.heap[r].(timer := true, armed := true)), t, JoinAdding(id, role, r))
    case JoinAdding(id, role, r) => Add(m, t, r, role, works)
    case LeaveLookup(id, role, own) => Goto(m, t, if id in m.rooms then LeaveRemoving(id, role, own, m.rooms[id]) else Finished)
    case LeaveRemoving(id, role, _, r) => Remove(m, t, id, r, role)
    case LeaveStopping(id, r) => Goto(Put(m, r, m.heap[r].(armed := false)), t, Deleting(id, r))
    case ExpireChecking(id, r) => Expire(m, t, id, r)
    case Deleting(id, r) => Delete(m, t, id, r)
    case Closing(r) => Goto(Put(m, r, m.heap[r].(sessionCloses := m.heap[r].sessionCloses + 1)), t, Finished)
    case Finished => m
  }

  function Apply(cfg: Config, m: Manager, step: Step): Manager
    requires Enabled(m, step)
  {
    match step
    case CallJoin(id, role) => m.(threads := m.threads + [JoinLookup(id, role)])
    case CallLeave(id, role, own) => m.(threads := m.threads + [LeaveLookup(id, role, own)])
    case Fire(r) =>
      m.(heap := m.heap[r := m.heap[r].(armed := false)], threads := m.threads + [ExpireChecking(m.heap[r].id, r)])
    case Move(t, works) => Section(cfg, m, t, works)
  }

  // ----- The invariant

  /** Every open room is the one stored under its id, so there is at most one per id. */
  ghost predicate Stored(m: Manager) {
    && (forall id :: id in m.rooms ==> m.rooms[id] < |m.heap| && m.heap[m.rooms[id]].id == id)
    && (forall r :: 0 <= r < |m.heap| && !m.heap[r].closed ==> m.heap[r].id in m.rooms && m.rooms[m.heap[r].id] == r)
  }

  predicate Tearing(thread: Thread, r: nat) {
    match thread
    case LeaveStopping(_, x) => x == r
    case Deleting(_, x) => x == r
    case Closing(x) => x == r
    case _ => false
  }

  /** Only the thread that closed a room tears it down, and the session's Close is its
      last act. */
  ghost predicate TornDownOnce(m: Manager) {
    && (forall t, r :: 0 <= t < |m.threads| && 0 <= r < |m.heap| && Tearing(m.threads[t], r) ==>
          m.heap[r].closer == t && m.heap[r].sessionCloses == 0)
    && (forall r :: 0 <= r < |m.heap| ==>
          && m.heap[r].sessionCloses <= (if m.heap[r].closed then 1 else 0)
          && (m.heap[r].closed <==> m.heap[r].closer >= 0)
          && m.heap[r].closer < |m.threads|)
  }

  ghost predicate Sound(cfg: Config, m: Manager) {
    && (forall t :: 0 <= t < |m.threads| ==> InHeap(m, m.threads[t]))
    && Stored(m)
    && TornDownOnce(m)
    && (cfg.maxRooms > 0 ==> |m.rooms| <= cfg.maxRooms)
  }

  /** Rooms are never removed, keep their id, and never reopen. */
  ghost predicate Grows(m: Manager, m': Manager) {
    |m.heap| <= |m'.heap| && |m.threads| <= |m'.threads|
    && forall r :: 0 <= r < |m.heap| ==> m'.heap[r].id == m.heap[r].id && (m.heap[r].closed ==> m'.heap[r].closed)
  }

  /** Thread t may go on to `next` without taking up a teardown. */
  ghost predicate MayGo(m: Manager, t: nat, next: Thread) {
    && t < |m.threads|
    && InHeap(m, next)
    && (forall r :: Tearing(next, r) ==> Tearing(m.threads[t], r))
  }

  lemma GotoSound(cfg: Config, m: Manager, t: nat, next: Thread)
    requires Sound(cfg, m) && MayGo(m, t, next)
    ensures Sound(cfg, Goto(m, t, next)) && Grows(m, Goto(m, t, next))
  {
  }

  /** Changing anything but a room's id, its closing or its session. */
  lemma PutSound(cfg: Config, m: Manager, r: nat, room: Room)
    requires Sound(cfg, m) && r < |m.heap|
    requires room.id == m.heap[r].id && room.closed == m.heap[r].closed && room.closer == m.heap[r].closer
    requires room.sessionCloses == m.heap[r].sessionCloses
    ensures Sound(cfg, Put(m, r, room)) && Grows(m, Put(m, r, room))
    ensures forall next :: InHeap(m, next) ==> InHeap(Put(m, r, room), next)
  {
    PutInHeap(m, r, room);
    PutStored(m, r, room);
    PutTornDown(m, r, room);
  }

  lemma PutInHeap(m: Manager, r: nat, room: Room)
    requires r < |m.heap| && room.id == m.heap[r].id
    ensures forall next :: InHeap(m, next) ==> InHeap(Put(m, r, room), next)
  {
  }

  lemma PutStored(m: Manager, r: nat, room: Room)
    requires Stored(m) && r < |m.heap| && room.id == m.heap[r].id && (m.heap[r].closed ==> room.closed)
    ensures Stored(Put(m, r, room))
  {
  }

  lemma PutTornDown(m: Manager, r: nat, room: Room)
    requires TornDownOnce(m) && r < |m.heap|
    requires room.closed == m.heap[r].closed && room.closer == m.heap[r].closer && room.sessionCloses == m.heap[r].sessionCloses
    ensures TornDownOnce(Put(m, r, room))
  {
  }

  lemma CloseSound(cfg: Config, m: Manager, t: nat, r: nat, room: Room, next: Thread)
    requires Sound(cfg, m) && r < |m.heap| && t < |m.threads| && !m.heap[r].closed
    requires room.id == m.heap[r].id && room.closed && room.closer == t && room.sessionCloses == m.heap[r].sessionCloses == 0
    requires InHeap(m, next) && (forall x :: Tearing(next, x) ==> x == r) && (forall x :: !Tearing(m.threads[t], x))
    ensures Sound(cfg, Goto(Put(m, r, room), t, next)) && Grows(m, Goto(Put(m, r, room), t, next))
  {
    var m' := Goto(Put(m, r, room), t, next);
    PutInHeap(m, r, room);
    PutStored(m, r, room);
    assert Stored(m');
    forall u, x | 0 <= u < |m'.threads| && 0 <= x < |m'.heap| && Tearing(m'.threads[u], x)
      ensures m'.heap[x].closer == u && m'.heap[x].sessionCloses == 0
    {
      if u != t {
        assert Tearing(m.threads[u], x);
      }
    }
  }

  lemma CreateSound(cfg: Config, m: Manager, id: Id, room: Room)
    requires Sound(cfg, m) && id !in m.rooms && (cfg.maxRooms > 0 ==> |m.rooms| < cfg.maxRooms)
    requires room.id == id && !room.closed && room.sessionCloses == 0 && room.closer == -1
    ensures var m' := m.(heap := m.heap + [room], rooms := m.rooms[id := |m.heap|]);
            Sound(cfg, m') && Grows(m, m')
  {
  }

  /** A closed room may be taken out of the map. */
  lemma ForgetSound(cfg: Config, m: Manager, id: Id, r: nat)
    requires Sound(cfg, m) && id in m.rooms && m.rooms[id] == r && m.heap[r].closed
    ensures Sound(cfg, m.(rooms := m.rooms - {id}))
  {
    var m' := m.(rooms := m.rooms - {id});
    assert m'.rooms.Keys == m.rooms.Keys - {id};
    assert |m'.rooms| < |m.rooms|;
    assert Stored(m');
    assert TornDownOnce(m');
  }

  lemma DeleteSound(cfg: Config, m: Manager, t: nat, id: Id, r: nat)
    requires Sound(cfg, m) && t < |m.threads| && m.threads[t] == Deleting(id, r)
    ensures Sound(cfg, Delete(m, t, id, r)) && Grows(m, Delete(m, t, id, r))
  {
    assert InHeap(m, m.threads[t]) && Tearing(m.threads[t], r);
    if id in m.rooms && m.rooms[id] == r {
      ForgetSound(cfg, m, id, r);
      GotoSound(cfg, m.(rooms := m.rooms - {id}), t, Closing(r));
    } else {
      GotoSound(cfg, m, t, Closing(r));
    }
  }

  lemma CloseSessionSound(cfg: Config, m: Manager, t: nat, r: nat)
    requires Sound(cfg, m) && t < |m.threads| && m.threads[t] == Closing(r)
    ensures r < |m.heap|
    ensures var m' := Goto(Put(m, r, m.heap[r].(sessionCloses := m.heap[r].sessionCloses + 1)), t, Finished);
            Sound(cfg, m') && Grows(m, m')
  {
  }

  lemma LookupSound(cfg: Config, m: Manager, t: nat, id: Id, role: Role, works: bool)
    requires Sound(cfg, m) && t < |m.threads| && m.threads[t] == JoinLookup(id, role)
    ensures Sound(cfg, Lookup(cfg, m, t, id, role, works)) && Grows(m, Lookup(cfg, m, t, id, role, works))
  {
    if id in m.rooms {
      GotoSound(cfg, m, t, JoinChecking(id, role, m.rooms[id]));
    } else if (cfg.maxRooms > 0 && |m.rooms| >= cfg.maxRooms) || !works {
      GotoSound(cfg, m, t, Finished);
    } else {
      NewRoomSound(cfg, m, t, id, role);
    }
  }

  lemma NewRoomSound(cfg: Config, m: Manager, t: nat, id: Id, role: Role)
    requires Sound(cfg, m) && t < |m.threads| && m.threads[t] == JoinLookup(id, role)
    requires id !in m.rooms && (cfg.maxRooms > 0 ==> |m.rooms| < cfg.maxRooms)
    ensures Sound(cfg, Lookup(cfg, m, t, id, role, true)) && Grows(m, Lookup(cfg, m, t, id, role, true))
  {
    var r := |m.heap|;
    var room := Room(id, Vacant, Vacant, false, false, false, 0, -1);
    CreateSound(cfg, m, id, room);
    var made := m.(heap := m.heap + [room], rooms := m.rooms[id := r]);
    GotoSound(cfg, made, t, if cfg.idle then JoinArming(id, role, r) else JoinAdding(id, role, r));
  }

  lemma AddSound(cfg: Config, m: Manager, t: nat, r: nat, role: Role, works: bool)
    requires Sound(cfg, m) && t < |m.threads| && r < |m.heap|
    ensures Sound(cfg, Add(m, t, r, role, works)) && Grows(m, Add(m, t, r, role, works))
  {
    if Has(m.heap[r], role) || !works {
      GotoSound(cfg, m, t, Finished);
    } else {
      var added := Fill(m.heap[r], role, Peer(t));
      var room := if Full(added) && added.timer then added.(timer := false, armed := false) else added;
      PutSound(cfg, m, r, room);
      GotoSound(cfg, Put(m, r, room), t, Finished);
    }
  }

  lemma RemoveSound(cfg: Config, m: Manager, t: nat, id: Id, r: nat, role: Role, own: nat)
    requires Sound(cfg, m) && t < |m.threads| && m.threads[t] == LeaveRemoving(id, role, own, r)
    ensures r < |m.heap| && Sound(cfg, Remove(m, t, id, r, role)) && Grows(m, Remove(m, t, id, r, role))
  {
    assert InHeap(m, m.threads[t]);
    var left := Fill(m.heap[r], role, Vacant);
    if m.heap[r].closed {
      GotoSound(cfg, m, t, Finished);
    } else if !Empty(left) {
      PutSound(cfg, m, r, left);
      GotoSound(cfg, Put(m, r, left), t, Finished);
    } else {
      CloseSound(cfg, m, t, r, left.(closed := true, closer := t), if left.timer then LeaveStopping(id, r) else Deleting(id, r));
    }
  }

  lemma ExpireSound(cfg: Config, m: Manager, t: nat, id: Id, r: nat)
    requires Sound(cfg, m) && t < |m.threads| && m.threads[t] == ExpireChecking(id, r)
    ensures r < |m.heap| && Sound(cfg, Expire(m, t, id, r)) && Grows(m, Expire(m, t, id, r))
  {
    assert InHeap(m, m.threads[t]);
    var room := m.heap[r];
    if room.closed || Full(room) {
      GotoSound(cfg, m, t, Finished);
    } else {
      CloseSound(cfg, m, t, r, room.(closed := true, closer := t, caller := Vacant, agent := Vacant), Deleting(id, r));
    }
  }

  lemma TimerSound(cfg: Config, m: Manager, t: nat, r: nat, room: Room, next: Thread)
    requires Sound(cfg, m) && r < |m.heap| && MayGo(m, t, next)
    requires room == m.heap[r].(timer := room.timer, armed := room.armed)
    ensures Sound(cfg, Goto(Put(m, r, room), t, next)) && Grows(m, Goto(Put(m, r, room), t, next))
  {
    PutSound(cfg, m, r, room);
    GotoSound(cfg, Put(m, r, room), t, next);
  }

  lemma PassingSound(cfg: Config, m: Manager, t: nat, works: bool)
    requires Sound(cfg, m) && t < |m.threads|
    requires var thread := m.threads[t];
             thread.JoinChecking? || thread.JoinArming? || thread.LeaveLookup? || thread.LeaveStopping?
    ensures InHeap(m, m.threads[t]) && Sound(cfg, Section(cfg, m, t, works)) && Grows(m, Section(cfg, m, t, works))
  {
    assert InHeap(m, m.threads[t]);
    match m.threads[t]
    case JoinChecking(id, role, r) =>
      GotoSound(cfg, m, t, if m.heap[r].closed then JoinLookup(id, role) else JoinAdding(id, role, r));
    case JoinArming(id, role, r) => TimerSound(cfg, m, t, r, m.heap[r].(timer := true, armed := true), JoinAdding(id, role, r));
    case LeaveLookup(id, role, own) =>
      GotoSound(cfg, m, t, if id in m.rooms then LeaveRemoving(id, role, own, m.rooms[id]) else Finished);
    case LeaveStopping(id, r) => TimerSound(cfg, m, t, r, m.heap[r].(armed := false), Deleting(id, r));
  }

  lemma LeavingSound(cfg: Config, m: Manager, t: nat, works: bool)
    requires Sound(cfg, m) && t < |m.threads| && InHeap(m, m.threads[t])
    requires var thread := m.threads[t]; thread.LeaveRemoving? || thread.ExpireChecking? || thread.Deleting? || thread.Closing?
    ensures Sound(cfg, Section(cfg, m, t, works)) && Grows(m, Section(cfg, m, t, works))
  {
    match m.threads[t]
    case LeaveRemoving(id, role, own, r) => RemoveSound(cfg, m, t, id, r, role, own);
    case ExpireChecking(id, r) => ExpireSound(cfg, m, t, id, r);
    case Deleting(id, r) => DeleteSound(cfg, m, t, id, r);
    case Closing(r) => CloseSessionSound(cfg, m, t, r);
  }

  lemma SectionSound(cfg: Config, m: Manager, t: nat, works: bool)
    requires Sound(cfg, m) && t < |m.threads| && InHeap(m, m.threads[t]) && !m.threads[t].Finished?
    ensures Sound(cfg, Section(cfg, m, t, works)) && Grows(m, Section(cfg, m, t, works))
  {
    var thread := m.threads[t];
    if thread.JoinLookup? {
      LookupSound(cfg, m, t, thread.id, thread.role, works);
    } else if thread.JoinAdding? {
      AddSound(cfg, m, t, thread.r, thread.role, works);
    } else if thread.LeaveRemoving? || thread.ExpireChecking? || thread.Deleting? || thread.Closing? {
      LeavingSound(cfg, m, t, works);
    } else {
      PassingSound(cfg, m, t, works);
    }
  }

  lemma CallSound(cfg: Config, m: Manager, thread: Thread)
    requires Sound(cfg, m) && InHeap(m, thread) && forall r :: !Tearing(thread, r)
    ensures Sound(cfg, m.(threads := m.threads + [thread])) && Grows(m, m.(threads := m.threads + [thread]))
  {
  }

  lemma StepSound(cfg: Config, m: Manager, step: Step)
    requires Sound(cfg, m) && Enabled(m, step)
    ensures Sound(cfg, Apply(cfg, m, step)) && Grows(m, Apply(cfg, m, step))
  {
    match step
    case CallJoin(id, role) => CallSound(cfg, m, JoinLookup(id, role));
    case CallLeave(id, role, own) => CallSound(cfg, m, LeaveLookup(id, role, own));
    case Fire(r) =>
      var quiet := m.heap[r].(armed := false);
      PutSound(cfg, m, r, quiet);
      CallSound(cfg, Put(m, r, quiet), ExpireChecking(m.heap[r].id, r));
    case Move(t, works) => SectionSound(cfg, m, t, works);
  }
}
