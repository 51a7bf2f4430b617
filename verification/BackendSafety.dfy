// Runs of the backend lifecycle with process deaths, failing status writes and supervisor crashes:
// at most one backend process lives, and what is durable names it.
module BackendSafety {
  import opened Wrappers
  import opened Backend

  datatype Process = Process(token: nat, pid: Pid)

  /** `memory` is the status the store holds, `durable` the one on disk. `due` counts restart
      timers that fired and wait for their turn. `live` holds the backend processes. `blind` is set
      once a recovery gave up waiting for a reservation whose process was alive. */
  datatype State = State(
    c: Controller,
    memory: Option<Status>,
    durable: Option<Status>,
    due: nat,
    live: set<Process>,
    blind: bool)

  datatype Event =
    | Recovered(alive: bool, aliveAgain: bool)
    | StartAsked(alive: bool)
    | StopAsked
    | RestartAsked
    | Due(alive: bool)
    | Occupied(occupied: bool, token: nat)
    | Reserved(launch: Launch)
    | Readied(ok: bool)
    | Identified(found: Option<Pid>, alive: bool)
    | Probed(same: bool, alive: bool)
    | Terminated(ok: bool)
    | Resumed(alive: bool)
    | Exited
    | SpawnErrored
    | AdoptedDied
    | AdoptedChecked(same: bool)
    | OrphanStopped
    | OwnedKilled
    | Died(process: Process)
    | StatusWritten(ok: bool)
    | Flushed
    | TimerFired
    | Rescheduled
    | Crash

  predicate Asks(e: Event) {
    e.StartAsked? || e.RestartAsked?
  }

  /** A step of the controller alone; `Reserved` and `Identified` also concern the world. */
  function Act(c: Controller, e: Event): Controller {
    match e
    case StartAsked(alive) => if c.at.Idle? then StartHead(c, alive) else c
    case StopAsked => if c.at.Idle? then StopHead(c, false) else c
    case RestartAsked => if c.at.Idle? then Await(c.(state := Restarting), RestartEmit) else c
    case Occupied(occupied, token) => OnOccupied(c, occupied, token)
    case Readied(ok) => OnReadied(c, ok)
    case Probed(same, alive) => OnProbed(c, same, alive)
    case Terminated(ok) => OnTerminated(c, ok)
    case Resumed(alive) => OnResumed(c, alive)
    case Exited => OnExited(c)
    case SpawnErrored => OnSpawnError(c)
    case AdoptedDied => OnAdoptedDead(c)
    case AdoptedChecked(same) => OnAdoptedChecked(c, same)
    case OrphanStopped => OrphanStop(c)
    case OwnedKilled => OwnedKill(c)
    case Rescheduled => Schedule(c)
    case _ => c
  }

  function Spawned(c: Controller, launch: Launch): set<Process> {
    if c.at.Reserving? && c.wait == Written(true) && launch.Launched? && launch.pid.Some?
    then {Process(c.at.token, launch.pid.value)}
    else {}
  }

  predicate GivesUp(c: Controller, e: Event) {
    e.Identified? && e.found.None? && c.at.WaitIdentity? && c.at.expected.None?
  }

  function Step(s: State, e: Event): State {
    match e
    case Recovered(alive, aliveAgain) =>
      if s.c.at.Fresh? then s.(c := Recover(s.c, s.memory, alive, aliveAgain)) else s
    case Due(alive) => if s.c.at.Idle? && s.due > 0 then s.(c := StartHead(s.c, alive), due := s.due - 1) else s
    case Reserved(launch) => s.(c := OnReserved(s.c, launch), live := s.live + Spawned(s.c, launch))
    case Identified(found, alive) =>
      s.(c := OnIdentified(s.c, found, alive), blind := s.blind || (GivesUp(s.c, e) && s.live != {}))
    case Died(process) => s.(live := s.live - {process})
    case StatusWritten(ok) =>
      if s.c.pending == [] then s
      else s.(c := Settle(s.c, ok), memory := Some(s.c.pending[0]),
              durable := if ok then Some(s.c.pending[0]) else s.durable)
    case Flushed => s.(durable := s.memory)
    case TimerFired => if s.c.timer then s.(c := s.c.(timer := false), due := s.due + 1) else s
    case Crash => s.(c := NewController, memory := s.durable, due := 0)
    case _ => s.(c := Act(s.c, e))
  }

  // ----- What the environment may answer -----

  ghost predicate NoneWith(live: set<Process>, pid: Pid) {
    forall q :: q in live ==> q.pid != pid
  }

  ghost predicate NoneOf(live: set<Process>, token: nat) {
    forall q :: q in live ==> q.token != token
  }

  ghost predicate Dead(live: set<Process>, pid: Option<Pid>) {
    pid.Some? ==> NoneWith(live, pid.value)
  }

  ghost predicate HasPid(live: set<Process>, token: nat, pid: Pid) {
    forall q :: q in live ==> q.token == token ==> q.pid == pid
  }

  ghost predicate IdentifiedTruly(c: Controller, live: set<Process>, found: Option<Pid>, alive: bool) {
    match c.at
    case WaitIdentity(expected, token) =>
      (found.Some? ==> HasPid(live, token, found.value)) && (!alive ==> Dead(live, expected))
    case StoppedWait(pid, token) =>
      (found.Some? ==> HasPid(live, token, found.value)) && (!alive ==> NoneWith(live, pid))
    case _ => true
  }

  ghost predicate TerminatedTruly(c: Controller, live: set<Process>) {
    match c.at
    case Aborting(token) => !Owns(c, token)
    case StopTerminate(token, _) => !Owns(c, token)
    case StoppedKill(pid) => NoneWith(live, pid)
    case StopAdoptedKill(pid, _) => NoneWith(live, pid)
    case OrphanKill(pid) => NoneWith(live, pid)
    case _ => true
  }

  /** A process reported dead is dead; a token is answered by the process that holds it; a
      termination that succeeded left no process, and the exit of a child was handled by then; a
      new process has a pid of its own; a child that reports an error has no process. */
  ghost predicate Possible(s: State, e: Event) {
    match e
    case Recovered(alive, aliveAgain) => s.memory.Some? && (!alive || !aliveAgain) ==> Dead(s.live, s.memory.value.pid)
    case StartAsked(alive) => !alive ==> Dead(s.live, s.c.adopted)
    case Due(alive) => !alive ==> Dead(s.live, s.c.adopted)
    case Resumed(alive) => !alive ==> Dead(s.live, s.c.adopted)
    case Reserved(launch) => launch.Launched? && launch.pid.Some? ==> NoneWith(s.live, launch.pid.value)
    case Identified(found, alive) => IdentifiedTruly(s.c, s.live, found, alive)
    case Probed(_, alive) => s.c.at.AdoptProbe? && !alive ==> NoneWith(s.live, s.c.at.pid)
    case Terminated(ok) => ok ==> TerminatedTruly(s.c, s.live)
    case Exited => s.c.child.Some? ==> NoneOf(s.live, s.c.child.value.token)
    case SpawnErrored => s.c.child.Some? ==> s.c.child.value.pid.None?
    case AdoptedDied => Dead(s.live, s.c.adopted)
    case _ => true
  }

  function Run(s: State, events: seq<Event>): State {
    if events == [] then s else Step(Run(s, events[..|events| - 1]), events[|events| - 1])
  }

  ghost predicate AllPossible(s: State, events: seq<Event>) {
    events == [] ||
    (AllPossible(s, events[..|events| - 1]) && Possible(Run(s, events[..|events| - 1]), events[|events| - 1]))
  }

  function Boot(durable: Option<Status>): State {
    State(NewController, durable, durable, 0, {}, false)
  }

  // ----- Invariant -----

  /** A status from which a recovery finds the process again. */
  predicate Names(status: Option<Status>, q: Process) {
    && status.Some? && status.value.token == Some(q.token)
    && (status.value.pid == Some(q.pid)
        || (status.value.pid.None? && status.value.state.Starting? && status.value.desired.WantRunning?))
  }

  predicate Carries(status: Option<Status>, token: nat) {
    status.Some? && status.value.token == Some(token)
  }

  ghost predicate AllName(pending: seq<Status>, memory: Option<Status>, durable: Option<Status>, q: Process) {
    Names(memory, q) && Names(durable, q) && forall r :: r in pending ==> Names(Some(r), q)
  }

  ghost predicate AllCarry(pending: seq<Status>, memory: Option<Status>, durable: Option<Status>, token: nat) {
    Carries(memory, token) && Carries(durable, token) && forall r :: r in pending ==> Carries(Some(r), token)
  }

  predicate Recovering(at: Point) {
    at.Fresh? || at.AdoptProbe? || at.WaitIdentity? || at.StoppedWait?
  }

  /** The points at which there is no child. */
  predicate Childless(at: Point) {
    || Recovering(at) || at.StoppedEmit? || at.StoppedKill? || at.StopAdoptedEmit? || at.StopAdoptedProbe?
    || at.StopAdoptedKill? || at.StopAdoptedDone? || at.OrphanEmit? || at.OrphanKill? || at.OrphanDone?
    || at.Occupant? || at.Reserving?
  }

  /** The points at which no process was adopted. */
  predicate Unadopted(at: Point) {
    Recovering(at) || at.Occupant? || at.Reserving? || at.StartTerminate?
  }

  /** The points of an operation on the adopted process `at.pid`. */
  predicate AdoptedAt(at: Point) {
    || at.StoppedEmit? || at.StoppedKill? || at.StopAdoptedEmit? || at.StopAdoptedProbe? || at.StopAdoptedKill?
    || at.OrphanEmit? || at.OrphanKill?
  }

  predicate Exclusive(c: Controller) {
    && (c.child.Some? ==> c.adopted.None? && c.token == Some(c.child.value.token))
    && (c.adopted.Some? ==> c.token.Some?)
    && (Childless(c.at) ==> c.child.None?)
    && (Unadopted(c.at) ==> c.adopted.None?)
    && (c.at.Occupant? || c.at.StartTerminate? ==> c.desired.WantRunning?)
    && (AdoptedAt(c.at) ==> c.adopted.Some? ==> c.adopted.value == c.at.pid)
  }

  /** A known process has its token in every status that is, or may become, durable. */
  ghost predicate Carried(c: Controller, memory: Option<Status>, durable: Option<Status>) {
    c.child.Some? || c.adopted.Some? ==> c.token.Some? && AllCarry(c.pending, memory, durable, c.token.value)
  }

  function Reservation(token: nat): Status {
    Status(Starting, WantRunning, None, Some(token))
  }

  /** The pending write of a reservation is the last one. */
  predicate ReservationPending(c: Controller, memory: Option<Status>, durable: Option<Status>) {
    c.at.Reserving? ==>
      && c.token == Some(c.at.token) && c.desired.WantRunning?
      && match c.wait
         case NoWrite => false
         case Behind(n) => n == |c.pending| > 0 && c.pending[n - 1] == Reservation(c.at.token)
         case Written(ok) => c.pending == [] && (ok ==> memory == durable == Some(Reservation(c.at.token)))
  }

  /** A recovery has written nothing and works from the durable status. */
  predicate RecoveryFresh(c: Controller, memory: Option<Status>, durable: Option<Status>) {
    Recovering(c.at) ==>
      && c.pending == [] && memory == durable
      && match c.at
         case AdoptProbe(prev, pid, token) =>
           memory == Some(prev) && prev.pid == Some(pid) && prev.token == Some(token) && prev.desired.WantRunning?
         case WaitIdentity(expected, token) =>
           memory.Some? && memory.value.pid == expected && memory.value.token == Some(token)
         case StoppedWait(pid, token) =>
           memory.Some? && memory.value.pid == Some(pid) && memory.value.token == Some(token)
         case _ => true
  }

  /** The controller owns the process, adopted it, or has yet to recover it. */
  predicate Held(c: Controller, q: Process) {
    || c.child == Some(Child(q.token, Some(q.pid)))
    || (c.adopted == Some(q.pid) && c.token == Some(q.token))
    || Recovering(c.at)
  }

  ghost predicate Known(s: State) {
    !s.blind ==>
      && (forall p, q :: p in s.live && q in s.live ==> p == q)
      && (forall q :: q in s.live ==> Held(s.c, q) && AllName(s.c.pending, s.memory, s.durable, q))
  }

  ghost predicate Inv(s: State) {
    && Exclusive(s.c) && Carried(s.c, s.memory, s.durable) && ReservationPending(s.c, s.memory, s.durable)
    && RecoveryFresh(s.c, s.memory, s.durable) && Known(s)
  }

  // ----- Moves -----

  predicate SameProcess(c: Controller, d: Controller) {
    d.child == c.child && d.adopted == c.adopted && d.token == c.token && d.pending == c.pending
  }

  predicate Enters(c: Controller, at: Point) {
    !Recovering(at) && !at.Reserving? && Exclusive(c.(at := at))
  }

  lemma GoKeeps(s: State, c: Controller, at: Point)
    requires Inv(s) && !Recovering(s.c.at) && SameProcess(s.c, c) && Enters(c, at)
    ensures Inv(s.(c := Go(c, at)))
  {
  }

  lemma AwaitKeeps(s: State, c: Controller, at: Point)
    requires Inv(s) && !Recovering(s.c.at) && SameProcess(s.c, c) && Enters(c, at)
    ensures Inv(s.(c := Await(c, at)))
  {
  }

  /** Without a live process the controller may forget what it knew. */
  lemma ForgetKeeps(s: State, c: Controller)
    requires Inv(s) && (s.blind || s.live == {}) && c.child.None? && c.adopted.None? && Enters(c, c.at)
    ensures Inv(s.(c := c))
  {
  }

  lemma AdoptedDeadIsNone(s: State)
    requires Inv(s) && !Recovering(s.c.at) && s.c.child.None? && Dead(s.live, s.c.adopted)
    ensures s.blind || s.live == {}
  {
  }

  lemma StartHeadKeeps(s: State, alive: bool)
    requires Inv(s) && !Recovering(s.c.at) && (!alive ==> Dead(s.live, s.c.adopted))
    ensures Inv(s.(c := StartHead(s.c, alive)))
  {
    hide Inv;
    InvExclusive(s);
    var c := s.c.(desired := WantRunning, timer := false);
    if c.adopted.Some? && alive {
      GoKeeps(s, c, if c.token.Some? then StartProbe else Idle);
    } else if c.adopted.Some? {
      AdoptedDeadIsNone(s);
      ForgetKeeps(s, Go(ClearAdopted(c), Occupant));
    } else {
      GoKeeps(s, c, if c.child.None? then Occupant
                    else if c.state.Running? || c.state.Starting? then Idle else StartTerminate);
    }
  }

  lemma InvExclusive(s: State)
    requires Inv(s)
    ensures Exclusive(s.c)
  {
  }

  lemma StopHeadKeeps(s: State, thenStart: bool)
    requires Inv(s) && !Recovering(s.c.at)
    ensures Inv(s.(c := StopHead(s.c, thenStart)))
  {
    hide Inv;
    InvExclusive(s);
    var c := s.c.(desired := WantStopped, timer := false);
    if c.adopted.Some? {
      AwaitKeeps(s, c.(state := Stopping), StopAdoptedEmit(c.adopted.value, c.token, thenStart));
    } else if c.child.None? {
      AwaitKeeps(s, c.(state := Stopped), StopDone(thenStart));
    } else {
      AwaitKeeps(s, c.(state := Stopping), StopEmit(c.child.value.token, thenStart));
    }
  }

  // ----- Every step -----

  lemma AskedKeeps(s: State, e: Event)
    requires Inv(s) && Possible(s, e)
    requires e.StartAsked? || e.Due? || e.StopAsked? || e.RestartAsked? || e.OrphanStopped? || e.OwnedKilled?
    ensures Inv(Step(s, e))
  {
    hide Inv, StartHead, StopHead;
    InvExclusive(s);
    if s.c.at.Idle? {
      match e
      case StartAsked(alive) => StartHeadKeeps(s, alive);
      case Due(alive) =>
        StartHeadKeeps(s, alive);
        if s.due > 0 {
          TimersKeep(s.(c := StartHead(s.c, alive)), StartHead(s.c, alive).timer, s.due - 1);
        }
      case StopAsked => StopHeadKeeps(s, false);
      case RestartAsked => AwaitKeeps(s, s.c.(state := Restarting), RestartEmit);
      case OrphanStopped =>
        if s.c.adopted.Some? {
          AwaitKeeps(s, s.c.(state := Stopping), OrphanEmit(s.c.adopted.value));
        }
      case OwnedKilled => AwaitKeeps(s, s.c.(state := Crashed), OwnedEmit);
    }
  }

  lemma FailedKeeps(s: State, token: nat)
    requires Inv(s) && !Recovering(s.c.at)
    ensures Inv(s.(c := Failed(s.c, token)))
  {
    hide Inv;
    InvExclusive(s);
    GoKeeps(s, s.c, if Owns(s.c, token) then Aborting(token) else Idle);
  }

  lemma OccupiedKeeps(s: State, occupied: bool, token: nat)
    requires Inv(s)
    ensures Inv(s.(c := OnOccupied(s.c, occupied, token)))
  {
  }

  lemma ReservedKeeps(s: State, launch: Launch)
    requires Inv(s)
    ensures Inv(s.(c := OnReserved(s.c, launch), live := s.live + Spawned(s.c, launch)))
  {
  }

  lemma ReadiedKeeps(s: State, ok: bool)
    requires Inv(s)
    ensures Inv(s.(c := OnReadied(s.c, ok)))
  {
    hide Inv, Failed;
    InvExclusive(s);
    match s.c.at
    case WaitSpawn(token) => FailedKeeps(s, token);
    case Readying(token) =>
      if ok && Owns(s.c, token) {
        AwaitKeeps(s, s.c.(state := Running), Announcing(token));
      } else {
        FailedKeeps(s, token);
      }
    case _ =>
  }

  lemma ExitedKeeps(s: State)
    requires Inv(s) && (s.c.child.Some? ==> NoneOf(s.live, s.c.child.value.token))
    ensures Inv(s.(c := OnExited(s.c)))
  {
  }

  lemma SpawnErrorKeeps(s: State)
    requires Inv(s) && (s.c.child.Some? ==> s.c.child.value.pid.None?)
    ensures Inv(s.(c := OnSpawnError(s.c)))
  {
  }

  lemma AdoptedDeadKeeps(s: State)
    requires Inv(s) && Dead(s.live, s.c.adopted)
    ensures Inv(s.(c := OnAdoptedDead(s.c)))
  {
  }

  lemma AdoptedCheckedKeeps(s: State, same: bool)
    requires Inv(s)
    ensures Inv(s.(c := OnAdoptedChecked(s.c, same)))
  {
  }

  lemma TimersKeep(s: State, timer: bool, due: nat)
    requires Inv(s)
    ensures Inv(s.(c := s.c.(timer := timer), due := due))
  {
  }

  lemma WrittenKeeps(s: State, e: Event)
    requires Inv(s) && Possible(s, e) && (e.StatusWritten? || e.Flushed?)
    ensures Inv(Step(s, e))
  {
  }

  lemma WorldKeeps(s: State, e: Event)
    requires Inv(s) && Possible(s, e) && (e.Died? || e.Crash?)
    ensures Inv(Step(s, e))
  {
  }

  lemma TerminatedKeeps(s: State, ok: bool)
    requires Inv(s) && (ok ==> TerminatedTruly(s.c, s.live))
    ensures Inv(s.(c := OnTerminated(s.c, ok)))
  {
    hide Inv, Await, Go, Emit, Schedule;
    match s.c.at
    case StartTerminate => ChildTerminatedKeeps(s, ok);
    case Aborting(_) => AbortedKeeps(s, ok);
    case StopTerminate(_, _) => StopTerminatedKeeps(s, ok);
    case StoppedKill(pid) => KilledKeeps(s, pid, ok, LastWrite);
    case StopAdoptedKill(pid, thenStart) => KilledKeeps(s, pid, ok, StopAdoptedDone(thenStart));
    case OrphanKill(pid) => KilledKeeps(s, pid, ok, OrphanDone);
    case OwnedTerminate => ChildTerminatedKeeps(s, ok);
    case _ =>
  }

  lemma ChildTerminatedKeeps(s: State, ok: bool)
    requires Inv(s) && (ok ==> TerminatedTruly(s.c, s.live))
    requires s.c.at.StartTerminate? || s.c.at.OwnedTerminate?
    ensures Inv(s.(c := OnTerminated(s.c, ok)))
  {
    hide Inv, Await, Go, Emit, Schedule, Known, ClearAdopted;
    InvExclusive(s);
    var c := s.c;
    match c.at
    case StartTerminate => GoKeeps(s, c, if ok && c.child.None? then Occupant else Idle);
    case OwnedTerminate =>
      GoKeeps(s, c, Idle);
      AwaitKeeps(s, c, OwnedFailed);
  }

  lemma StopTerminatedKeeps(s: State, ok: bool)
    requires Inv(s) && (ok ==> TerminatedTruly(s.c, s.live)) && s.c.at.StopTerminate?
    ensures Inv(s.(c := OnTerminated(s.c, ok)))
  {
    hide Inv, Await, Go, Emit, Schedule, ClearAdopted;
    InvExclusive(s);
    var c := s.c;
    AwaitKeeps(s, c.(state := Crashed), LastWrite);
    AwaitKeeps(s, c.(state := Stopped), StopDone(c.at.thenStart));
  }

  lemma AbortedKeeps(s: State, ok: bool)
    requires Inv(s) && s.c.at.Aborting?
    ensures Inv(s.(c := Go(if ok then s.c else Schedule(Emit(s.c.(state := Crashed))), Idle)))
  {
    hide Inv;
    InvExclusive(s);
    var c := s.c.(state := Crashed);
    if ok {
      GoKeeps(s, s.c, Idle);
    } else {
      EmitKeeps(s, c);
      GoKeeps(s.(c := Emit(c)), Schedule(Emit(c)), Idle);
    }
  }

  /** The end of the termination of an adopted process. */
  lemma KilledKeeps(s: State, pid: Pid, ok: bool, next: Point)
    requires Inv(s) && !Recovering(s.c.at) && AdoptedAt(s.c.at) && s.c.at.pid == pid && Childless(s.c.at)
    requires ok ==> NoneWith(s.live, pid)
    requires next.LastWrite? || next.StopAdoptedDone? || next.OrphanDone?
    ensures ok ==> Inv(s.(c := Await(ClearAdopted(s.c).(state := Stopped), next)))
    ensures !ok ==> Inv(s.(c := Await(s.c.(state := Crashed), LastWrite)))
  {
    hide Inv;
    InvExclusive(s);
    if ok {
      AdoptedDeadIsNone(s);
      ForgetKeeps(s, Await(ClearAdopted(s.c).(state := Stopped), next));
    } else {
      AwaitKeeps(s, s.c.(state := Crashed), LastWrite);
    }
  }

  lemma EmitKeeps(s: State, c: Controller)
    requires Inv(s) && !Recovering(s.c.at) && !s.c.at.Reserving?
    requires SameProcess(s.c, c) && c.at == s.c.at && c.desired == s.c.desired
    ensures Inv(s.(c := Emit(c)))
  {
  }

  predicate ResumesStop(at: Point) {
    at.StopEmit? || at.StopDone? || at.StopAdoptedEmit? || at.StopAdoptedDone? || at.RestartEmit?
  }

  lemma StopResumedKeeps(s: State, alive: bool)
    requires Inv(s) && (!alive ==> Dead(s.live, s.c.adopted)) && ResumesStop(s.c.at)
    ensures Inv(s.(c := OnResumed(s.c, alive)))
  {
    hide Inv, OnResumed;
    if s.c.at.StopAdoptedEmit? {
      StopAnnouncedKeeps(s, alive);
    } else if s.c.at.StopAdoptedDone? || s.c.at.StopDone? {
      StopEndedKeeps(s, alive);
    } else {
      StopBegunKeeps(s, alive);
    }
  }

  lemma StopBegunKeeps(s: State, alive: bool)
    requires Inv(s) && (s.c.at.StopEmit? || s.c.at.RestartEmit?)
    ensures Inv(s.(c := OnResumed(s.c, alive)))
  {
    hide Inv, StartHead, StopHead, Failed, Await, Go, Schedule, Emit;
    InvExclusive(s);
    var c := s.c;
    match c.at
    case StopEmit(token, thenStart) =>
      GoKeeps(s, c, if c.wait == Written(true) then StopTerminate(token, thenStart) else Idle);
    case RestartEmit =>
      StopHeadKeeps(s, true);
      GoKeeps(s, c, Idle);
  }

  lemma StopAnnouncedKeeps(s: State, alive: bool)
    requires Inv(s) && s.c.at.StopAdoptedEmit?
    ensures Inv(s.(c := OnResumed(s.c, alive)))
  {
    hide Inv, StartHead, StopHead, Failed, Await, Go, Schedule, Emit;
    InvExclusive(s);
    var c := s.c;
    AwaitKeeps(s, c.(state := Crashed), LastWrite);
    GoKeeps(s, c, if c.wait == Written(true) then StopAdoptedProbe(c.at.pid, c.at.thenStart) else Idle);
  }

  lemma StopEndedKeeps(s: State, alive: bool)
    requires Inv(s) && (!alive ==> Dead(s.live, s.c.adopted)) && (s.c.at.StopAdoptedDone? || s.c.at.StopDone?)
    ensures Inv(s.(c := OnResumed(s.c, alive)))
  {
    hide Inv, StartHead, StopHead, Failed, Await, Go, Schedule, Emit;
    InvExclusive(s);
    StartHeadKeeps(s, alive);
    GoKeeps(s, s.c, Idle);
    AwaitKeeps(s, s.c.(state := Crashed), LastWrite);
  }

  lemma LaunchResumedKeeps(s: State, alive: bool)
    requires Inv(s) && (s.c.at.Publishing? || s.c.at.Announcing?)
    ensures Inv(s.(c := OnResumed(s.c, alive)))
  {
    hide Inv, StartHead, StopHead, Failed, Await, Go, Schedule, Emit;
    InvExclusive(s);
    var token := s.c.at.token;
    FailedKeeps(s, token);
    GoKeeps(s, s.c, if s.c.at.Publishing? then Readying(token) else Idle);
  }

  lemma LastResumedKeeps(s: State, alive: bool)
    requires Inv(s) && (s.c.at.LastWrite? || s.c.at.StoppedEmit?)
    ensures Inv(s.(c := OnResumed(s.c, alive)))
  {
    hide Inv, StartHead, StopHead, Failed, Await, Go, Schedule, Emit;
    InvExclusive(s);
    var next := if s.c.at.StoppedEmit? && s.c.wait == Written(true) then StoppedKill(s.c.at.pid) else Idle;
    GoKeeps(s, s.c, next);
  }

  lemma ResumedKeeps(s: State, alive: bool)
    requires Inv(s) && (!alive ==> Dead(s.live, s.c.adopted))
    ensures Inv(s.(c := OnResumed(s.c, alive)))
  {
    hide Inv, OnResumed;
    if ResumesStop(s.c.at) {
      StopResumedKeeps(s, alive);
    } else if s.c.at.Publishing? || s.c.at.Announcing? {
      LaunchResumedKeeps(s, alive);
    } else if s.c.at.LastWrite? || s.c.at.StoppedEmit? {
      LastResumedKeeps(s, alive);
    } else {
      MonitorResumedKeeps(s, alive);
    }
  }

  lemma MonitorResumedKeeps(s: State, alive: bool)
    requires Inv(s)
    requires (s.c.at.OrphanEmit? || s.c.at.OrphanDone? || s.c.at.OwnedEmit? || s.c.at.OwnedFailed?
        || !AfterWrite(s.c.at))
    ensures Inv(s.(c := OnResumed(s.c, alive)))
  {
    hide Inv, StartHead, StopHead, Failed, Await, Go, Schedule, Emit;
    if s.c.at.OrphanEmit? || s.c.at.OrphanDone? {
      OrphanResumedKeeps(s, alive);
    } else if s.c.at.OwnedEmit? || s.c.at.OwnedFailed? {
      OwnedResumedKeeps(s, alive);
    }
  }

  lemma OrphanResumedKeeps(s: State, alive: bool)
    requires Inv(s) && (s.c.at.OrphanEmit? || s.c.at.OrphanDone?)
    ensures Inv(s.(c := OnResumed(s.c, alive)))
  {
    hide Inv, StartHead, StopHead, Failed, Await, Go, Schedule, Emit;
    InvExclusive(s);
    var c := s.c;
    match c.at
    case OrphanEmit(pid) => GoKeeps(s, c, if c.wait == Written(true) then OrphanKill(pid) else Idle);
    case OrphanDone =>
      GoKeeps(s, c, Idle);
      AwaitKeeps(s, c.(state := Crashed), LastWrite);
  }

  lemma OwnedResumedKeeps(s: State, alive: bool)
    requires Inv(s) && (s.c.at.OwnedEmit? || s.c.at.OwnedFailed?)
    ensures Inv(s.(c := OnResumed(s.c, alive)))
  {
    hide Inv, StartHead, StopHead, Failed, Await, Go, Emit;
    InvExclusive(s);
    var c := s.c;
    var ok := c.wait == Written(true);
    match c.at
    case OwnedEmit => GoKeeps(s, c, if ok then OwnedTerminate else Idle);
    case OwnedFailed => GoKeeps(s, if ok then Schedule(c) else c, Idle);
  }

  predicate AfterWrite(at: Point) {
    || ResumesStop(at) || at.LastWrite? || at.StoppedEmit? || at.Publishing? || at.Announcing?
    || at.OrphanEmit? || at.OrphanDone? || at.OwnedEmit? || at.OwnedFailed?
  }

  // ----- Recovery -----

  lemma RecoveryStartKeeps(s: State)
    requires Inv(s) && Recovering(s.c.at) && (s.blind || s.live == {})
    ensures Inv(s.(c := StartHead(s.c, false))) && Inv(s.(c := StartHead(s.c.(token := None), false)))
  {
    hide Inv;
    InvExclusive(s);
    ForgetKeeps(s, StartHead(s.c, false));
    ForgetKeeps(s, StartHead(s.c.(token := None), false));
  }

  lemma StoppedEndKeeps(s: State, c: Controller)
    requires Inv(s) && Recovering(s.c.at) && (s.blind || s.live == {}) && c.child.None? && c.adopted.None?
    ensures Inv(s.(c := StoppedEnd(c)))
  {
    hide Inv;
    InvExclusive(s);
    ForgetKeeps(s, StoppedEnd(c));
  }

  predicate Remembered(memory: Option<Status>, token: nat, pid: Option<Pid>) {
    memory.Some? && memory.value.token == Some(token) && (memory.value.pid.Some? ==> memory.value.pid == pid)
  }

  /** Taking the persisted process over: by its pid, or by the pid its token answered with. */
  lemma AdoptKeeps(s: State, c: Controller, pid: Pid, token: nat, next: Point)
    requires Inv(s) && Recovering(s.c.at) && Remembered(s.memory, token, Some(pid))
        && (s.blind || HasPid(s.live, token, pid))
    requires c.child.None? && c.adopted == Some(pid) && c.token == Some(token) && c.pending == s.c.pending
    requires next.LastWrite? || next == StoppedEmit(pid)
    ensures Inv(s.(c := Await(c, next)))
  {
  }

  lemma PersistedKeeps(s: State, prev: Status, alive: bool)
    requires Inv(s) && Recovering(s.c.at) && s.memory == Some(prev) && (!alive ==> Dead(s.live, prev.pid))
    ensures Inv(s.(c := PersistedRunning(s.c, prev, alive)))
  {
    hide StartHead;
    if prev.token.Some? && ((prev.pid.Some? && alive) || (prev.state.Starting? && prev.pid.None?)) {
    } else {
      assert s.blind || s.live == {};
      RecoveryStartKeeps(s);
    }
  }

  lemma RecoverKeeps(s: State, e: Event)
    requires Inv(s) && Possible(s, e) && e.Recovered?
    ensures Inv(Step(s, e))
  {
    hide StartHead, PersistedRunning, StoppedEnd, Known;
    if s.c.at.Fresh? {
      if s.memory.None? {
        NothingRemembered(s);
        RecoveryStartKeeps(s);
      } else {
        var prev := s.memory.value;
        PersistedKeeps(s, prev, e.aliveAgain);
        if prev.desired.WantStopped? {
          StoppedKeeps(s, prev, e.alive);
        } else if prev.pid.Some? && prev.token.Some? && e.alive {
          ProbeKeeps(s, AdoptProbe(prev, prev.pid.value, prev.token.value));
        }
      }
    }
  }

  lemma NothingRemembered(s: State)
    requires Inv(s) && s.memory.None?
    ensures s.blind || s.live == {}
  {
  }

  /** Recovery waits for an answer about the persisted process. */
  lemma ProbeKeeps(s: State, at: Point)
    requires Inv(s) && s.c.at.Fresh? && s.memory.Some?
    requires (at.AdoptProbe? && s.memory == Some(at.prev) && at.prev.desired.WantRunning?
              && at.prev.pid == Some(at.pid) && at.prev.token == Some(at.token))
          || (at.StoppedWait? && s.memory.value.pid == Some(at.pid) && s.memory.value.token == Some(at.token))
    ensures Inv(s.(c := Go(s.c, at)))
    ensures Inv(s.(c := Go(ClearAdopted(s.c.(desired := WantStopped, timer := false)), at)))
  {
  }

  lemma StoppedKeeps(s: State, prev: Status, alive: bool)
    requires Inv(s) && s.c.at.Fresh? && s.memory == Some(prev) && prev.desired.WantStopped?
    requires !alive ==> Dead(s.live, prev.pid)
    ensures Inv(s.(c := RecoverStopped(s.c, prev, alive)))
  {
    hide StoppedEnd;
    if prev.pid.Some? && prev.token.Some? && alive {
      ProbeKeeps(s, StoppedWait(prev.pid.value, prev.token.value));
    } else {
      StoppedEndKeeps(s, ClearAdopted(s.c.(desired := WantStopped, timer := false)));
    }
  }

  lemma AdoptProbedKeeps(s: State, same: bool, alive: bool)
    requires Inv(s) && s.c.at.AdoptProbe? && (!alive ==> NoneWith(s.live, s.c.at.pid))
    ensures Inv(s.(c := OnProbed(s.c, same, alive)))
  {
    hide Inv, PersistedRunning, Await, Go, Known;
    InvExclusive(s);
    ProbeRemembers(s);
    var pid, token := s.c.at.pid, s.c.at.token;
    if same {
      AdoptKeeps(s,
        s.c.(child := None, adopted := Some(pid), token := Some(token), desired := WantRunning, state := Running),
                 pid, token, LastWrite);
    } else {
      PersistedKeeps(s, s.c.at.prev, alive);
    }
  }

  lemma StartProbedKeeps(s: State, same: bool, alive: bool)
    requires Inv(s) && s.c.at.StartProbe?
    ensures Inv(s.(c := OnProbed(s.c, same, alive)))
  {
    hide Inv, Await, Go, Known, Emit;
    InvExclusive(s);
    AwaitKeeps(s, s.c.(state := Running), LastWrite);
    GoKeeps(s, s.c, Idle);
  }

  lemma StopProbedKeeps(s: State, same: bool, alive: bool)
    requires Inv(s) && s.c.at.StopAdoptedProbe?
    ensures Inv(s.(c := OnProbed(s.c, same, alive)))
  {
    hide Inv, Await, Go, Known, Emit;
    InvExclusive(s);
    GoKeeps(s, s.c, StopAdoptedKill(s.c.at.pid, s.c.at.thenStart));
    AwaitKeeps(s, s.c.(state := Crashed), LastWrite);
  }

  lemma NotProbed(c: Controller, same: bool, alive: bool)
    requires !c.at.AdoptProbe? && !c.at.StartProbe? && !c.at.StopAdoptedProbe?
    ensures OnProbed(c, same, alive) == c
  {
    hide PersistedRunning, Await, Go;
  }

  lemma ProbedKeeps(s: State, same: bool, alive: bool)
    requires Inv(s) && (s.c.at.AdoptProbe? && !alive ==> NoneWith(s.live, s.c.at.pid))
    ensures Inv(s.(c := OnProbed(s.c, same, alive)))
  {
    hide Inv, OnProbed;
    match s.c.at
    case AdoptProbe(_, _, _) => AdoptProbedKeeps(s, same, alive);
    case StartProbe => StartProbedKeeps(s, same, alive);
    case StopAdoptedProbe(_, _) => StopProbedKeeps(s, same, alive);
    case _ => NotProbed(s.c, same, alive);
  }

  lemma ProbeRemembers(s: State)
    requires Inv(s) && s.c.at.AdoptProbe?
    ensures s.memory == Some(s.c.at.prev) && s.c.at.prev.pid == Some(s.c.at.pid)
    ensures Remembered(s.memory, s.c.at.token, Some(s.c.at.pid))
    ensures s.blind || HasPid(s.live, s.c.at.token, s.c.at.pid)
  {
  }

  lemma IdentifiedKeeps(s: State, answered: Option<Pid>, alive: bool, blind: bool)
    requires Inv(s) && IdentifiedTruly(s.c, s.live, answered, alive)
    requires blind == (s.blind || (GivesUp(s.c, Identified(answered, alive)) && s.live != {}))
    ensures Inv(s.(c := OnIdentified(s.c, answered, alive), blind := blind))
  {
    hide Inv, StartHead, StoppedEnd, Await, Known;
    InvExclusive(s);
    WaitRemembers(s);
    BlindKeeps(s);
    match s.c.at
    case WaitIdentity(expected, token) =>
      var found := Believed(expected, answered);
      if found.Some? || (expected.Some? && alive) {
        var pid := if found.Some? then found else expected;
        AdoptKeeps(s, s.c.(child := None, adopted := pid, token := Some(token), desired := WantRunning,
                           state := if found.Some? then Running else Crashed), pid.value, token, LastWrite);
      } else {
        UnansweredIsDead(s, expected, blind);
        RecoveryStartKeeps(s.(blind := blind));
      }
    case StoppedWait(pid, token) =>
      var found := Believed(Some(pid), answered);
      if found.Some? || alive {
        AdoptKeeps(s,
          s.c.(adopted := Some(pid), token := Some(token), state := if found.Some? then Stopping else Crashed),
                   pid, token, if found.Some? then StoppedEmit(pid) else LastWrite);
      } else {
        UnansweredIsDead(s, Some(pid), blind);
        StoppedEndKeeps(s, s.c);
      }
    case _ =>
  }

  lemma WaitRemembers(s: State)
    requires Inv(s)
    ensures s.c.at.WaitIdentity? ==>
      && Remembered(s.memory, s.c.at.token, s.c.at.expected) && s.memory.value.pid == s.c.at.expected
      && (s.c.at.expected.Some? ==> s.blind || HasPid(s.live, s.c.at.token, s.c.at.expected.value))
    ensures s.c.at.StoppedWait? ==>
      && Remembered(s.memory, s.c.at.token, Some(s.c.at.pid)) && s.memory.value.pid == Some(s.c.at.pid)
      && (s.blind || HasPid(s.live, s.c.at.token, s.c.at.pid))
  {
  }

  lemma BlindKeeps(s: State)
    requires Inv(s)
    ensures Inv(s.(blind := true)) && Inv(s.(blind := s.blind))
  {
  }

  /** The remembered pid is dead, or nothing tells a process that may still come up. */
  lemma UnansweredIsDead(s: State, pid: Option<Pid>, blind: bool)
    requires Inv(s) && Recovering(s.c.at) && s.memory.Some? && s.memory.value.pid == pid
    requires Dead(s.live, pid) && (pid.None? ==> blind == (s.blind || s.live != {})) && (pid.Some? ==> blind == s.blind)
    ensures blind || s.live == {}
  {
  }

  lemma {:induction false} StepKeeps(s: State, e: Event)
    requires Inv(s) && Possible(s, e)
    ensures Inv(Step(s, e))
  {
    hide Inv, StartHead, OnOccupied, OnReserved, OnReadied, OnIdentified, OnProbed, OnTerminated, OnResumed, OnExited;
    hide OnSpawnError;
    hide OnAdoptedDead, OnAdoptedChecked, OrphanStop, OwnedKill, StopHead, Recover, Await;
    match e
    case Recovered(_, _) => RecoverKeeps(s, e);
    case Occupied(occupied, token) => OccupiedKeeps(s, occupied, token);
    case Reserved(launch) => ReservedKeeps(s, launch);
    case Readied(ok) => ReadiedKeeps(s, ok);
    case Identified(found, alive) => IdentifiedKeeps(s, found, alive, s.blind || (GivesUp(s.c, e) && s.live != {}));
    case Probed(same, alive) => ProbedKeeps(s, same, alive);
    case Terminated(ok) => TerminatedKeeps(s, ok);
    case Resumed(alive) => ResumedKeeps(s, alive);
    case Exited => ExitedKeeps(s);
    case SpawnErrored => SpawnErrorKeeps(s);
    case AdoptedDied => AdoptedDeadKeeps(s);
    case AdoptedChecked(same) => AdoptedCheckedKeeps(s, same);
    case StatusWritten(_) => WrittenKeeps(s, e);
    case Flushed => WrittenKeeps(s, e);
    case Died(_) => WorldKeeps(s, e);
    case Crash => WorldKeeps(s, e);
    case TimerFired => TimersKeep(s, false, s.due + 1);
    case Rescheduled =>
      TimersKeep(s, true, s.due);
    case _ => AskedKeeps(s, e);
  }

  lemma {:induction false} RunKeeps(s: State, events: seq<Event>)
    requires Inv(s) && AllPossible(s, events)
    ensures Inv(Run(s, events))
  {
    if events != [] {
      hide Inv, Step, Possible;
      RunKeeps(s, events[..|events| - 1]);
      StepKeeps(Run(s, events[..|events| - 1]), events[|events| - 1]);
    }
  }
}
