// The lifecycle of the supervised backend process (src/local-control/excubitor-backend.ts). A
// lifecycle operation runs from one await to the next in one step; `at` says which await it stands
// at. Probes, liveness checks, writes and terminations answer what the environment chooses.
module Backend {
  import opened Wrappers

  type Pid = p: nat | p > 0 witness 1

  datatype Phase = Stopped | Starting | Running | Crashed | Stopping | Restarting

  datatype Intent = WantRunning | WantStopped

  datatype Status = Status(state: Phase, desired: Intent, pid: Option<Pid>, token: Option<nat>)

  datatype Child = Child(token: nat, pid: Option<Pid>)

  /** The await a lifecycle operation stands at. `thenStart` marks the stop inside a restart. */
  datatype Point =
    | Fresh
    | Idle
    | LastWrite
    | AdoptProbe(prev: Status, pid: Pid, token: nat)
    | WaitIdentity(expected: Option<Pid>, token: nat)
    | StoppedWait(pid: Pid, token: nat)
    | StoppedEmit(pid: Pid)
    | StoppedKill(pid: Pid)
    | StartProbe
    | StartTerminate
    | Occupant
    | Reserving(token: nat)
    | WaitSpawn(token: nat)
    | Publishing(token: nat)
    | Readying(token: nat)
    | Announcing(token: nat)
    | Aborting(token: nat)
    | StopEmit(token: nat, thenStart: bool)
    | StopTerminate(token: nat, thenStart: bool)
    | StopDone(thenStart: bool)
    | StopAdoptedEmit(pid: Pid, known: Option<nat>, thenStart: bool)
    | StopAdoptedProbe(pid: Pid, thenStart: bool)
    | StopAdoptedKill(pid: Pid, thenStart: bool)
    | StopAdoptedDone(thenStart: bool)
    | RestartEmit
    | OrphanEmit(pid: Pid)
    | OrphanKill(pid: Pid)
    | OrphanDone
    | OwnedEmit
    | OwnedTerminate
    | OwnedFailed

  /** The status write the operation awaits: the `n`-th pending one, or one that settled. */
  datatype Wait = NoWrite | Behind(n: nat) | Written(ok: bool)

  datatype Controller = Controller(
    child: Option<Child>,
    adopted: Option<Pid>,
    token: Option<nat>,
    state: Phase,
    desired: Intent,
    timer: bool,
    at: Point,
    wait: Wait,
    pending: seq<Status>)

  datatype Launch = Threw | Launched(pid: Option<Pid>)

  const NewController := Controller(None, None, None, Stopped, WantStopped, false, Fresh, NoWrite, [])

  function StatusOf(c: Controller): Status {
    Status(c.state, c.desired,
      if c.child.Some? && c.child.value.pid.Some? then c.child.value.pid else c.adopted, c.token)
  }

  function Emit(c: Controller): Controller {
    c.(pending := c.pending + [StatusOf(c)])
  }

  function Await(c: Controller, at: Point): Controller {
    c.(pending := c.pending + [StatusOf(c)], at := at, wait := Behind(|c.pending| + 1))
  }

  function Go(c: Controller, at: Point): Controller {
    c.(at := at, wait := NoWrite)
  }

  function ClearAdopted(c: Controller): Controller {
    c.(adopted := None, token := None)
  }

  function Schedule(c: Controller): Controller {
    if c.desired.WantRunning? then c.(timer := true) else c
  }

  predicate Owns(c: Controller, token: nat) {
    c.child.Some? && c.child.value.token == token
  }

  // ----- Starting -----

  /** `alive` answers the liveness check of the adopted pid. */
  function StartHead(c: Controller, alive: bool): Controller {
    var c := c.(desired := WantRunning, timer := false);
    if c.adopted.Some? && alive then Go(c, if c.token.Some? then StartProbe else Idle)
    else
      var c := if c.adopted.Some? then ClearAdopted(c) else c;
      if c.child.None? then Go(c, Occupant)
      else if c.state.Running? || c.state.Starting? then Go(c, Idle)
      else Go(c, StartTerminate)
  }

  function OnOccupied(c: Controller, occupied: bool, token: nat): Controller {
    if !c.at.Occupant? then c
    else if occupied then Await(c.(state := Crashed), LastWrite)
    else Await(c.(state := Starting, token := Some(token)), Reserving(token))
  }

  /** The reservation write settled; only if it was durable is the process spawned. */
  function OnReserved(c: Controller, launch: Launch): Controller {
    if !c.at.Reserving? || !c.wait.Written? then c
    else if !c.wait.ok then Go(Schedule(c.(state := Crashed, token := None)), Idle)
    else match launch
      case Threw => Go(Schedule(Emit(c.(state := Crashed, token := None))), Idle)
      case Launched(pid) =>
        var owned := c.(child := Some(Child(c.at.token, pid)));
        if pid.Some? then Await(owned, Publishing(c.at.token)) else Go(owned, WaitSpawn(c.at.token))
  }

  function Failed(c: Controller, token: nat): Controller {
    Go(c, if Owns(c, token) then Aborting(token) else Idle)
  }

  function OnReadied(c: Controller, ok: bool): Controller {
    match c.at
    case WaitSpawn(token) => Failed(c, token)
    case Readying(token) =>
      if ok && Owns(c, token) then Await(c.(state := Running), Announcing(token)) else Failed(c, token)
    case _ => c
  }

  // ----- Recovery -----

  function AcceptAdopted(c: Controller, pid: Pid, token: nat): Controller {
    Await(c.(child := None, adopted := Some(pid), token := Some(token), desired := WantRunning, state := Running),
      LastWrite)
  }

  function PersistedRunning(c: Controller, prev: Status, alive: bool): Controller {
    if prev.token.None? then StartHead(c, false)
    else if !(prev.pid.Some? && alive) && !(prev.state.Starting? && prev.pid.None?) then StartHead(c, false)
    else Go(c, WaitIdentity(prev.pid, prev.token.value))
  }

  function StoppedEnd(c: Controller): Controller {
    Await(c.(state := Stopped, token := None), LastWrite)
  }

  function RecoverStopped(c: Controller, prev: Status, alive: bool): Controller {
    var c := ClearAdopted(c.(desired := WantStopped, timer := false));
    if prev.pid.Some? && prev.token.Some? && alive then Go(c, StoppedWait(prev.pid.value, prev.token.value))
    else StoppedEnd(c)
  }

  /** `alive` and `aliveAgain` answer the two liveness checks of the persisted pid. */
  function Recover(c: Controller, previous: Option<Status>, alive: bool, aliveAgain: bool): Controller {
    if previous.None? then StartHead(c, false)
    else
      var prev := previous.value;
      if prev.desired.WantStopped? then RecoverStopped(c, prev, alive)
      else if prev.pid.Some? && prev.token.Some? && alive then Go(c, AdoptProbe(prev, prev.pid.value, prev.token.value))
      else PersistedRunning(c, prev, aliveAgain)
  }

  /** An answer under another pid than the expected one is none. */
  function Believed(expected: Option<Pid>, answered: Option<Pid>): Option<Pid> {
    if expected.Some? && answered != expected then None else answered
  }

  /** `answered` is the live pid under which the awaited token answered before the deadline. */
  function OnIdentified(c: Controller, answered: Option<Pid>, alive: bool): Controller {
    match c.at
    case WaitIdentity(expected, token) =>
      var found := Believed(expected, answered);
      if found.Some? then AcceptAdopted(c, found.value, token)
      else if expected.Some? && alive
      then Await(c.(adopted := expected, token := Some(token), desired := WantRunning, state := Crashed), LastWrite)
      else StartHead(c.(token := None), false)
    case StoppedWait(pid, token) =>
      var found := Believed(Some(pid), answered);
      if found.Some? then Await(c.(adopted := found, token := Some(token), state := Stopping), StoppedEmit(found.value))
      else if alive then Await(c.(adopted := Some(pid), token := Some(token), state := Crashed), LastWrite)
      else StoppedEnd(c)
    case _ => c
  }

  /** `same`: the health endpoint answered with the pid and token asked for. */
  function OnProbed(c: Controller, same: bool, alive: bool): Controller {
    match c.at
    case AdoptProbe(prev, pid, token) =>
      if same then AcceptAdopted(c, pid, token) else PersistedRunning(c, prev, alive)
    case StartProbe => if same then Await(c.(state := Running), LastWrite) else Go(c, Idle)
    case StopAdoptedProbe(pid, thenStart) =>
      if same then Go(c, StopAdoptedKill(pid, thenStart)) else Await(c.(state := Crashed), LastWrite)
    case _ => c
  }

  // ----- Stopping -----

  function StopHead(c: Controller, thenStart: bool): Controller {
    var c := c.(desired := WantStopped, timer := false);
    if c.adopted.Some? then Await(c.(state := Stopping), StopAdoptedEmit(c.adopted.value, c.token, thenStart))
    else if c.child.None? then Await(c.(state := Stopped), StopDone(thenStart))
    else Await(c.(state := Stopping), StopEmit(c.child.value.token, thenStart))
  }

  /** A termination ended: `ok` when the process is gone. */
  function OnTerminated(c: Controller, ok: bool): Controller {
    match c.at
    case StartTerminate => Go(c, if ok && c.child.None? then Occupant else Idle)
    case Aborting(_) => Go(if ok then c else Schedule(Emit(c.(state := Crashed))), Idle)
    case StopTerminate(token, thenStart) =>
      if !ok then Await(c.(state := Crashed), LastWrite)
      else Await(c.(child := if Owns(c, token) then None else c.child, state := Stopped), StopDone(thenStart))
    case StoppedKill(_) => if ok then StoppedEnd(ClearAdopted(c)) else Await(c.(state := Crashed), LastWrite)
    case StopAdoptedKill(_, thenStart) =>
      if ok then Await(ClearAdopted(c).(state := Stopped), StopAdoptedDone(thenStart))
      else Await(c.(state := Crashed), LastWrite)
    case OrphanKill(_) =>
      if ok then Await(ClearAdopted(c).(state := Stopped), OrphanDone) else Await(c.(state := Crashed), LastWrite)
    case OwnedTerminate => if ok then Go(c, Idle) else Await(c, OwnedFailed)
    case _ => c
  }

  /** What follows an awaited status write that settled. */
  function OnResumed(c: Controller, alive: bool): Controller {
    if !c.wait.Written? then c
    else match c.at
      case LastWrite => Go(c, Idle)
      case StoppedEmit(pid) => Go(c, if c.wait.ok then StoppedKill(pid) else Idle)
      case Publishing(token) => if c.wait.ok then Go(c, Readying(token)) else Failed(c, token)
      case Announcing(token) => if c.wait.ok then Go(c, Idle) else Failed(c, token)
      case StopEmit(token, thenStart) => Go(c, if c.wait.ok then StopTerminate(token, thenStart) else Idle)
      case StopDone(thenStart) => if c.wait.ok && thenStart then StartHead(c, alive) else Go(c, Idle)
      case StopAdoptedEmit(pid, known, thenStart) =>
        if !c.wait.ok then Go(c, Idle)
        else if known.None? then Await(c.(state := Crashed), LastWrite)
        else Go(c, StopAdoptedProbe(pid, thenStart))
      case StopAdoptedDone(thenStart) =>
        if !c.wait.ok then Await(c.(state := Crashed), LastWrite)
        else if thenStart then StartHead(c, alive)
        else Go(c, Idle)
      case RestartEmit => if c.wait.ok then StopHead(c, true) else Go(c, Idle)
      case OrphanEmit(pid) => Go(c, if c.wait.ok then OrphanKill(pid) else Idle)
      case OrphanDone => if c.wait.ok then Go(c, Idle) else Await(c.(state := Crashed), LastWrite)
      case OwnedEmit => Go(c, if c.wait.ok then OwnedTerminate else Idle)
      case OwnedFailed => Go(if c.wait.ok then Schedule(c) else c, Idle)
      case _ => c
  }

  // ----- Outside the lifecycle operations -----

  function OnExited(c: Controller): Controller {
    if c.child.None? then c
    else Schedule(Emit(c.(child := None, token := None, state := if c.desired.WantRunning? then Crashed else Stopped)))
  }

  function OnSpawnError(c: Controller): Controller {
    if c.child.None? then c
    else Schedule(Emit(c.(child := None, token := None, state := Crashed)))
  }

  /** The monitor of the adopted process saw its pid gone. */
  function OnAdoptedDead(c: Controller): Controller {
    if c.adopted.None? || c.token.None? then c
    else Emit(ClearAdopted(c).(state := if c.desired.WantRunning? then Crashed else Stopped))
  }

  /** The monitor got its identity back, or missed it often enough. */
  function OnAdoptedChecked(c: Controller, same: bool): Controller {
    if c.adopted.None? || c.token.None? then c
    else if !same then Emit(c.(state := Crashed))
    else if !c.state.Running? && c.desired.WantRunning? then Emit(c.(state := Running))
    else c
  }

  function OrphanStop(c: Controller): Controller {
    if !c.at.Idle? || c.adopted.None? || c.token.None? || c.desired.WantRunning? then c
    else Await(c.(state := Stopping), OrphanEmit(c.adopted.value))
  }

  function OwnedKill(c: Controller): Controller {
    if !c.at.Idle? || c.child.None? || c.desired.WantStopped? then c
    else Await(c.(state := Crashed), OwnedEmit)
  }

  /** The oldest pending status write settled. */
  function Settle(c: Controller, ok: bool): Controller
    requires c.pending != []
  {
    c.(pending := c.pending[1..],
       wait := match c.wait
               case Behind(n) => if n <= 1 then Written(ok) else Behind(n - 1)
               case w => w)
  }
}
