// The mutable controller object of src/local-control/excubitor-backend.ts with the world around it.
// Every handler performs the step of the model and keeps its invariant; the other clauses say what that
// means for a caller.
module BackendController {
  import opened Wrappers
  import opened Backend
  import opened BackendSafety

  /** What the controller works in: the status the store holds and the one on disk, restart timers that
      wait for their turn, and the processes that are alive. */
  class Environment {
    var stored: Option<Status>
    var due: nat
    ghost var durable: Option<Status>
    ghost var live: set<Process>
    ghost var blind: bool

    constructor (status: Option<Status>, ghost live: set<Process>, ghost blind: bool)
      ensures stored == status && durable == status && due == 0 && this.live == live && this.blind == blind
    {
      stored, due, durable := status, 0, status;
      this.live, this.blind := live, blind;
    }
  }

  class ExcubitorBackendController {
    var child: Option<Child>
    var adoptedPid: Option<Pid>
    var instanceToken: Option<nat>
    var state: Phase
    var desiredState: Intent
    var restartTimer: bool
    var at: Point
    var wait: Wait
    var statusTail: seq<Status>
    const env: Environment

    ghost function Ctl(): Controller
      reads this
    {
      Controller(child, adoptedPid, instanceToken, state, desiredState, restartTimer, at, wait, statusTail)
    }

    ghost function View(): State
      reads this, env
    {
      State(Ctl(), env.stored, env.durable, env.due, env.live, env.blind)
    }

    ghost predicate Valid()
      reads this, env
    {
      Inv(View())
    }

    /** Nothing is alive that the controller would not know of. */
    ghost predicate Alone()
      reads this, env
    {
      child.None? && adoptedPid.None? && (env.blind || env.live == {})
    }

    /** The supervisor starts on a status file, beside whatever processes an earlier one left. */
    constructor (status: Option<Status>, ghost live: set<Process>, ghost blind: bool)
      requires Inv(State(NewController, status, status, 0, live, blind))
      ensures fresh(env) && Valid() && View() == State(NewController, status, status, 0, live, blind)
    {
      child, adoptedPid, instanceToken := None, None, None;
      state, desiredState, restartTimer := Stopped, WantStopped, false;
      at, wait, statusTail := Fresh, NoWrite, [];
      env := new Environment(status, live, blind);
    }

    // ----- Building blocks: one stretch of a method body -----

    method ReadStatus() returns (status: Status)
      ensures status == StatusOf(Ctl())
    {
      var pid := adoptedPid;
      if child.Some? && child.value.pid.Some? {
        pid := child.value.pid;
      }
      status := Status(state, desiredState, pid, instanceToken);
    }

    method EmitStatus()
      modifies this`statusTail
      ensures Ctl() == Emit(old(Ctl()))
    {
      var status := ReadStatus();
      statusTail := statusTail + [status];
    }

    /** `await this.emitStatus()` in a lifecycle operation. */
    method AwaitStatus(next: Point)
      modifies this`statusTail, this`at, this`wait
      ensures Ctl() == Await(old(Ctl()), next)
    {
      EmitStatus();
      at, wait := next, Behind(|statusTail|);
    }

    method Continue(next: Point)
      modifies this`at, this`wait
      ensures Ctl() == Go(old(Ctl()), next)
    {
      at, wait := next, NoWrite;
    }

    method ForgetAdopted()
      modifies this`adoptedPid, this`instanceToken
      ensures Ctl() == ClearAdopted(old(Ctl()))
    {
      adoptedPid, instanceToken := None, None;
    }

    method ScheduleRestart()
      modifies this`restartTimer
      ensures Ctl() == Schedule(old(Ctl()))
    {
      if desiredState.WantRunning? && !restartTimer {
        restartTimer := true;
      }
    }

    method StartInternal(alive: bool)
      modifies this
      ensures Ctl() == StartHead(old(Ctl()), alive)
    {
      hide Await, Emit, Schedule;
      desiredState, restartTimer := WantRunning, false;
      if adoptedPid.Some? {
        if alive {
          if instanceToken.Some? {
            Continue(StartProbe);
          } else {
            Continue(Idle);
          }
          return;
        }
        ForgetAdopted();
      }
      if child.Some? {
        if state.Running? || state.Starting? {
          Continue(Idle);
        } else {
          Continue(StartTerminate);
        }
        return;
      }
      Continue(Occupant);
    }

    /** The `catch` of the readiness block: terminate the child unless it is gone. */
    method FailReadiness(token: nat)
      modifies this`at, this`wait
      ensures Ctl() == Failed(old(Ctl()), token)
    {
      if child.Some? && child.value.token == token {
        Continue(Aborting(token));
      } else {
        Continue(Idle);
      }
    }

    method AcceptAdoptedIdentity(pid: Pid, token: nat)
      modifies this
      ensures Ctl() == AcceptAdopted(old(Ctl()), pid, token)
    {
      child, adoptedPid, instanceToken := None, Some(pid), Some(token);
      desiredState, state := WantRunning, Running;
      AwaitStatus(LastWrite);
    }

    method RecoverPersistedRunning(previous: Status, alive: bool)
      modifies this
      ensures Ctl() == PersistedRunning(old(Ctl()), previous, alive)
    {
      hide StartHead;
      if previous.token.None? {
        StartInternal(false);
        return;
      }
      var candidateAlive := previous.pid.Some? && alive;
      if !candidateAlive && !(previous.state.Starting? && previous.pid.None?) {
        StartInternal(false);
        return;
      }
      Continue(WaitIdentity(previous.pid, previous.token.value));
    }

    method EndStopped()
      modifies this
      ensures Ctl() == StoppedEnd(old(Ctl()))
    {
      state, instanceToken := Stopped, None;
      AwaitStatus(LastWrite);
    }

    method RecoverStoppedIntent(previous: Status, alive: bool)
      modifies this
      ensures Ctl() == RecoverStopped(old(Ctl()), previous, alive)
    {
      hide Await;
      desiredState, restartTimer := WantStopped, false;
      ForgetAdopted();
      if previous.pid.Some? && previous.token.Some? && alive {
        Continue(StoppedWait(previous.pid.value, previous.token.value));
        return;
      }
      EndStopped();
    }

    method StopInternal(thenStart: bool)
      modifies this
      ensures Ctl() == StopHead(old(Ctl()), thenStart)
    {
      hide Await;
      desiredState, restartTimer := WantStopped, false;
      if adoptedPid.Some? {
        var pid, token := adoptedPid.value, instanceToken;
        state := Stopping;
        AwaitStatus(StopAdoptedEmit(pid, token, thenStart));
        return;
      }
      if child.None? {
        state := Stopped;
        AwaitStatus(StopDone(thenStart));
        return;
      }
      state := Stopping;
      AwaitStatus(StopEmit(child.value.token, thenStart));
    }

    method CrashWith(next: Point)
      modifies this
      ensures Ctl() == Await(old(Ctl()).(state := Crashed), next)
    {
      state := Crashed;
      AwaitStatus(next);
    }

    method AdoptedTerminated(ok: bool, next: Point)
      modifies this
      ensures Ctl() == if ok then Await(ClearAdopted(old(Ctl())).(state := Stopped), next)
                        else Await(old(Ctl()).(state := Crashed), LastWrite)
    {
      if !ok {
        CrashWith(LastWrite);
        return;
      }
      ForgetAdopted();
      state := Stopped;
      AwaitStatus(next);
    }

    // ----- Requests -----

    /** A start never forgets an adopted process that is reported alive, and goes on to a launch only
        when nothing is alive. */
    method StartRequested(alive: bool)
      requires Valid() && at.Idle? && (!alive ==> Dead(env.live, adoptedPid))
      modifies this, env
      ensures Valid() && View() == Step(old(View()), StartAsked(alive))
      ensures desiredState.WantRunning? && !restartTimer && statusTail == old(statusTail)
      ensures old(adoptedPid).Some? && alive ==> adoptedPid == old(adoptedPid) && instanceToken == old(instanceToken)
      ensures at.Occupant? ==> Alone()
    {
      hide Inv, StartHead;
      StepKeeps(View(), StartAsked(alive));
      StartKeepsAdopted(View(), alive);
      StartInternal(alive);
      OccupantIsAlone(View());
    }

    /** The same for a restart timer whose turn has come. */
    method TimerTurn(alive: bool)
      requires Valid() && at.Idle? && env.due > 0 && (!alive ==> Dead(env.live, adoptedPid))
      modifies this, env
      ensures Valid() && View() == Step(old(View()), Due(alive))
      ensures old(adoptedPid).Some? && alive ==> adoptedPid == old(adoptedPid) && instanceToken == old(instanceToken)
      ensures at.Occupant? ==> Alone()
    {
      hide Inv, StartHead;
      StepKeeps(View(), Due(alive));
      StartKeepsAdopted(View(), alive);
      env.due := env.due - 1;
      StartInternal(alive);
      OccupantIsAlone(View());
    }

    /** A stop forgets nothing: it queues the stopped intent before anything is terminated. */
    method StopRequested()
      requires Valid() && at.Idle?
      modifies this, env
      ensures Valid() && View() == Step(old(View()), StopAsked)
      ensures child == old(child) && adoptedPid == old(adoptedPid) && instanceToken == old(instanceToken)
      ensures |statusTail| == |old(statusTail)| + 1 && statusTail[|statusTail| - 1].desired.WantStopped?
      ensures state == if child.Some? || adoptedPid.Some? then Stopping else Stopped
      ensures statusTail[|statusTail| - 1].state == state
      ensures !restartTimer && wait == Behind(|statusTail|)
    {
      hide Inv;
      StepKeeps(View(), StopAsked);
      StopInternal(false);
    }

    method RestartRequested()
      requires Valid() && at.Idle?
      modifies this, env
      ensures Valid() && View() == Step(old(View()), RestartAsked)
      ensures child == old(child) && adoptedPid == old(adoptedPid) && instanceToken == old(instanceToken)
      ensures |statusTail| == |old(statusTail)| + 1 && statusTail[|statusTail| - 1].state == state == Restarting
      ensures desiredState == old(desiredState) && restartTimer == old(restartTimer)
      ensures wait == Behind(|statusTail|)
    {
      hide Inv;
      StepKeeps(View(), RestartAsked);
      state := Restarting;
      AwaitStatus(RestartEmit);
    }

    // ----- Launching -----

    /** An occupied port ends in a crashed status; a free one leads to a queued reservation whose write, and
        no other, the launch waits for. */
    method ReserveLaunch(occupied: bool, freshToken: nat)
      requires Valid() && at.Occupant?
      modifies this, env
      ensures Valid() && View() == Step(old(View()), Occupied(occupied, freshToken))
      ensures child.None? && env.live == old(env.live)
      ensures occupied ==> at.LastWrite? && state.Crashed? && wait == Behind(|statusTail|) && statusTail != []
                           && statusTail[|statusTail| - 1].state.Crashed?
      ensures !occupied ==> at == Reserving(freshToken) && wait == Behind(|statusTail|) && statusTail != []
                            && statusTail[|statusTail| - 1] == Reservation(freshToken)
    {
      hide Inv;
      StepKeeps(View(), Occupied(occupied, freshToken));
      OccupantIsAlone(View());
      if occupied {
        state := Crashed;
        AwaitStatus(LastWrite);
        return;
      }
      state, instanceToken := Starting, Some(freshToken);
      AwaitStatus(Reserving(freshToken));
    }

    /** A process appears only behind a durable reservation that carries its token, and is then the only
        one. */
    method SpawnReserved(launch: Launch)
      requires Valid() && at.Reserving? && wait.Written?
      requires launch.Launched? && launch.pid.Some? ==> NoneWith(env.live, launch.pid.value)
      modifies this, env
      ensures Valid() && View() == Step(old(View()), Reserved(launch))
      ensures child.Some? ==> old(wait).ok && env.stored == env.durable == Some(Reservation(child.value.token))
      ensures env.live != old(env.live) ==> child.Some? && child.value.pid.Some?
      ensures env.live != old(env.live)
          ==> env.blind || env.live == {Process(child.value.token, child.value.pid.value)}
      ensures child.None? ==> env.live == old(env.live) && instanceToken.None?
    {
      hide Inv, Await, Go, Schedule, Emit;
      ghost var s := View();
      StepKeeps(s, Reserved(launch));
      ReservingIsAlone(s);
      var token := at.token;
      assert env.live + {} == env.live;
      if !wait.ok {
        state, instanceToken := Crashed, None;
        ScheduleRestart();
        Continue(Idle);
        return;
      }
      env.live := env.live + Spawned(s.c, launch);
      match launch {
        case Threw =>
          state, instanceToken := Crashed, None;
          EmitStatus();
          ScheduleRestart();
          Continue(Idle);
        case Launched(pid) =>
          child := Some(Child(token, pid));
          if pid.None? {
            Continue(WaitSpawn(token));
          } else {
            AwaitStatus(Publishing(token));
          }
      }
    }

    /** Readiness counts only for the child it was waited for; otherwise that child, if it is still
        there, is terminated. */
    method ReadinessEnded(ok: bool)
      requires Valid() && (at.WaitSpawn? || at.Readying?)
      modifies this, env
      ensures Valid() && View() == Step(old(View()), Readied(ok))
      ensures child == old(child)
      ensures at.Announcing? ==> ok && Owns(Ctl(), at.token)
      ensures at.Aborting? <==> Owns(Ctl(), old(at).token) && !at.Announcing?
    {
      hide Inv;
      StepKeeps(View(), Readied(ok));
      var token := at.token;
      if at.WaitSpawn? || !ok || child.None? || child.value.token != token {
        FailReadiness(token);
        return;
      }
      state := Running;
      AwaitStatus(Announcing(token));
    }

    // ----- Recovery -----

    /** With a running intent, a pid and a token, recovery waits for a pid that is reported alive; with a
        stopped intent it never goes on to a launch. */
    method Recover(alive: bool, aliveAgain: bool)
      requires Valid() && at.Fresh? && Possible(View(), Recovered(alive, aliveAgain))
      modifies this, env
      ensures Valid() && View() == Step(old(View()), Recovered(alive, aliveAgain))
      ensures env.stored == old(env.stored)
      ensures at.Occupant? ==> Alone() && (env.stored.Some? ==> env.stored.value.desired.WantRunning?)
      ensures env.stored.Some? && RunningIdentity(env.stored.value) && aliveAgain ==> Recovering(at)
    {
      hide Inv, StartHead, Possible, StoppedEnd;
      StepKeeps(View(), Recovered(alive, aliveAgain));
      RecoverDecides(View(), alive, aliveAgain);
      RecoverFrom(env.stored, alive, aliveAgain);
      OccupantIsAlone(View());
    }

    method RecoverFrom(previous: Option<Status>, alive: bool, aliveAgain: bool)
      modifies this
      ensures Ctl() == Backend.Recover(old(Ctl()), previous, alive, aliveAgain)
    {
      hide StartHead, PersistedRunning, RecoverStopped;
      if previous.None? {
        StartInternal(false);
        return;
      }
      var status := previous.value;
      if status.desired.WantStopped? {
        RecoverStoppedIntent(status, alive);
        return;
      }
      if status.pid.None? || status.token.None? || !alive {
        RecoverPersistedRunning(status, aliveAgain);
        return;
      }
      Continue(AdoptProbe(status, status.pid.value, status.token.value));
    }

    /** The end of the wait for the persisted identity: a pid that is alive is kept, under its token,
        whether its identity was confirmed or not. */
    method IdentityAnswered(answered: Option<Pid>, alive: bool)
      requires Valid() && (at.WaitIdentity? || at.StoppedWait?) && IdentifiedTruly(Ctl(), env.live, answered, alive)
      modifies this, env
      ensures Valid() && View() == Step(old(View()), Identified(answered, alive))
      ensures old(at).WaitIdentity? && old(at).expected.Some? && alive ==> adoptedPid == old(at).expected
      ensures old(at).StoppedWait? ==> !at.Occupant? && (alive ==> adoptedPid == Some(old(at).pid))
      ensures adoptedPid.Some? ==> child.None? && instanceToken == Some(old(at).token)
      ensures at.Occupant? ==> Alone()
    {
      hide Inv, StartHead;
      ghost var s := View();
      StepKeeps(s, Identified(answered, alive));
      IdentifiedKeepsAdopted(s, answered, alive);
      env.blind := env.blind || (GivesUp(s.c, Identified(answered, alive)) && env.live != {});
      AnswerIdentity(answered, alive);
      OccupantIsAlone(View());
    }

    method AnswerIdentity(answered: Option<Pid>, alive: bool)
      requires at.WaitIdentity? || at.StoppedWait?
      modifies this
      ensures Ctl() == OnIdentified(old(Ctl()), answered, alive)
    {
      hide StartHead, AcceptAdopted, StoppedEnd, Await;
      var token := at.token;
      var expected := if at.WaitIdentity? then at.expected else Some(at.pid);
      var found := answered;
      if expected.Some? && answered != expected {
        found := None;
      }
      match at {
        case WaitIdentity(_, _) =>
          if found.Some? {
            AcceptAdoptedIdentity(found.value, token);
          } else if expected.Some? && alive {
            adoptedPid, instanceToken := expected, Some(token);
            desiredState, state := WantRunning, Crashed;
            AwaitStatus(LastWrite);
          } else {
            instanceToken := None;
            StartInternal(false);
          }
        case StoppedWait(pid, _) =>
          if found.None? && alive {
            adoptedPid, instanceToken, state := Some(pid), Some(token), Crashed;
            AwaitStatus(LastWrite);
          } else if found.Some? {
            adoptedPid, instanceToken, state := found, Some(token), Stopping;
            AwaitStatus(StoppedEmit(found.value));
          } else {
            EndStopped();
          }
      }
    }

    /** A probe adopts only a confirmed identity, and without one an adopted process is neither forgotten
        nor terminated. */
    method HealthProbed(same: bool, alive: bool)
      requires Valid() && (at.AdoptProbe? || at.StartProbe? || at.StopAdoptedProbe?)
          && Possible(View(), Probed(same, alive))
      modifies this, env
      ensures Valid() && View() == Step(old(View()), Probed(same, alive))
      ensures old(at).AdoptProbe? && same ==> adoptedPid == Some(old(at).pid) && instanceToken == Some(old(at).token)
      ensures !old(at).AdoptProbe? ==> adoptedPid == old(adoptedPid) && instanceToken == old(instanceToken)
      ensures at.StopAdoptedKill? ==> same
      ensures at.Occupant? ==> Alone()
    {
      hide Inv, StartHead, Possible;
      StepKeeps(View(), Probed(same, alive));
      PersistedNeverKills(Ctl(), alive);
      ProbeHealth(same, alive);
      OccupantIsAlone(View());
    }

    method ProbeHealth(same: bool, alive: bool)
      requires at.AdoptProbe? || at.StartProbe? || at.StopAdoptedProbe?
      modifies this
      ensures Ctl() == OnProbed(old(Ctl()), same, alive)
    {
      hide PersistedRunning, AcceptAdopted, Await;
      match at {
        case AdoptProbe(prev, pid, token) =>
          if same {
            AcceptAdoptedIdentity(pid, token);
          } else {
            RecoverPersistedRunning(prev, alive);
          }
        case StartProbe =>
          if same {
            state := Running;
            AwaitStatus(LastWrite);
          } else {
            Continue(Idle);
          }
        case StopAdoptedProbe(pid, thenStart) =>
          if same {
            Continue(StopAdoptedKill(pid, thenStart));
          } else {
            state := Crashed;
            AwaitStatus(LastWrite);
          }
      }
    }

    // ----- Terminations and writes -----

    /** A termination that failed leaves what is known; after one that succeeded on an adopted process
        nothing is alive. */
    method TerminationEnded(ok: bool)
      requires Valid() && (ok ==> TerminatedTruly(Ctl(), env.live))
      modifies this, env
      ensures Valid() && View() == Step(old(View()), Terminated(ok))
      ensures !ok ==> child == old(child) && adoptedPid == old(adoptedPid) && instanceToken == old(instanceToken)
      ensures ok && (old(at).StoppedKill? || old(at).StopAdoptedKill? || old(at).OrphanKill?) ==> Alone()
      ensures at.Occupant? && !old(at).Occupant? ==> Alone()
    {
      hide Inv;
      ghost var s := View();
      StepKeeps(s, Terminated(ok));
      if ok {
        KilledIsAlone(s);
      }
      FailureForgetsNothing(s.c);
      EndTermination(ok);
      OccupantIsAlone(View());
    }

    method EndAbort(ok: bool)
      modifies this
      ensures Ctl() == Go(if ok then old(Ctl()) else Schedule(Emit(old(Ctl()).(state := Crashed))), Idle)
    {
      if !ok {
        state := Crashed;
        EmitStatus();
        ScheduleRestart();
      }
      Continue(Idle);
    }

    method EndStop(token: nat, thenStart: bool, ok: bool)
      modifies this
      ensures ok ==>
          Ctl() == Await(old(Ctl()).(child := if Owns(old(Ctl()), token) then None else old(child), state := Stopped),
                                    StopDone(thenStart))
      ensures !ok ==> Ctl() == Await(old(Ctl()).(state := Crashed), LastWrite)
    {
      if !ok {
        CrashWith(LastWrite);
        return;
      }
      if child.Some? && child.value.token == token {
        child := None;
      }
      state := Stopped;
      AwaitStatus(StopDone(thenStart));
    }

    method EndChild(ok: bool)
      requires at.StartTerminate? || at.OwnedTerminate?
      modifies this
      ensures Ctl() == OnTerminated(old(Ctl()), ok)
    {
      hide Await, Emit, Go, Schedule, ClearAdopted;
      if at.StartTerminate? {
        if ok && child.None? {
          Continue(Occupant);
        } else {
          Continue(Idle);
        }
      } else if ok {
        Continue(Idle);
      } else {
        AwaitStatus(OwnedFailed);
      }
    }

    method EndTermination(ok: bool)
      modifies this
      ensures Ctl() == OnTerminated(old(Ctl()), ok)
    {
      hide Await, Emit, Go, Schedule;
      match at {
        case StartTerminate => EndChild(ok);
        case OwnedTerminate => EndChild(ok);
        case Aborting(_) => EndAbort(ok);
        case StopTerminate(token, thenStart) => EndStop(token, thenStart, ok);
        case StoppedKill(_) => AdoptedTerminated(ok, LastWrite);
        case StopAdoptedKill(_, thenStart) => AdoptedTerminated(ok, StopAdoptedDone(thenStart));
        case OrphanKill(_) => AdoptedTerminated(ok, OrphanDone);
        case _ =>
      }
    }

    /** The oldest status write settled: a successful one is durable, and whatever is known stays named. */
    method StatusSettled(ok: bool)
      requires Valid() && statusTail != []
      modifies this, env
      ensures Valid() && View() == Step(old(View()), StatusWritten(ok))
      ensures ok ==> env.durable == Some(old(statusTail)[0])
      ensures !ok ==> env.durable == old(env.durable)
      ensures child.Some? ==> Carries(env.durable, child.value.token)
      ensures adoptedPid.Some? ==> instanceToken.Some? && Carries(env.durable, instanceToken.value)
    {
      hide Inv;
      StepKeeps(View(), StatusWritten(ok));
      var status := statusTail[0];
      env.stored := Some(status);
      env.durable := if ok then Some(status) else env.durable;
      statusTail := statusTail[1..];
      match wait {
        case Behind(n) =>
          if n <= 1 {
            wait := Written(ok);
          } else {
            wait := Behind(n - 1);
          }
        case _ =>
      }
      KnownIsCarried(View());
    }

    /** An operation goes on after its own status write. Nothing is terminated, and nobody is asked to
        confirm an identity for that, unless the write that announced it was durable. */
    method Resume(alive: bool)
      requires Valid() && (!alive ==> Dead(env.live, adoptedPid))
      modifies this, env
      ensures Valid() && View() == Step(old(View()), Resumed(alive))
      ensures Terminates(at) && !Terminates(old(at)) ==> old(wait) == Written(true)
      ensures child == old(child)
      ensures at.Occupant? && !old(at).Occupant? ==> Alone()
    {
      hide Inv, StartHead, StopHead;
      StepKeeps(View(), Resumed(alive));
      ResumeTerminates(Ctl(), alive);
      ResumeOperation(alive);
      OccupantIsAlone(View());
    }

    method ResumeOperation(alive: bool)
      modifies this
      ensures Ctl() == OnResumed(old(Ctl()), alive)
    {
      hide Await, Go, Schedule, Failed, StartHead, StopHead, Emit;
      if !wait.Written? {
        return;
      }
      var ok := wait.ok;
      match at {
        case LastWrite => Continue(Idle);
        case StoppedEmit(pid) => ContinueIf(ok, StoppedKill(pid));
        case Publishing(token) =>
          if ok {
            Continue(Readying(token));
          } else {
            FailReadiness(token);
          }
        case Announcing(token) =>
          if ok {
            Continue(Idle);
          } else {
            FailReadiness(token);
          }
        case OrphanEmit(_) => ResumeMonitor(ok, alive);
        case OrphanDone => ResumeMonitor(ok, alive);
        case OwnedEmit => ResumeMonitor(ok, alive);
        case OwnedFailed => ResumeMonitor(ok, alive);
        case _ => ResumeStop(ok, alive);
      }
    }

    method ResumeMonitor(ok: bool, alive: bool)
      requires wait == Written(ok) && (at.OrphanEmit? || at.OrphanDone? || at.OwnedEmit? || at.OwnedFailed?)
      modifies this
      ensures Ctl() == OnResumed(old(Ctl()), alive)
    {
      hide Await, Go, Schedule, Failed, StartHead, StopHead, Emit;
      match at {
        case OrphanEmit(pid) => ContinueIf(ok, OrphanKill(pid));
        case OrphanDone =>
          if ok {
            Continue(Idle);
          } else {
            CrashWith(LastWrite);
          }
        case OwnedEmit => ContinueIf(ok, OwnedTerminate);
        case OwnedFailed =>
          if ok {
            ScheduleRestart();
          }
          Continue(Idle);
      }
    }

    method ResumeStop(ok: bool, alive: bool)
      requires wait == Written(ok) && (ResumesStop(at) || !AfterWrite(at))
      modifies this
      ensures Ctl() == OnResumed(old(Ctl()), alive)
    {
      hide Await, Go, Schedule, Failed, StartHead, StopHead, Emit;
      match at {
        case StopEmit(token, thenStart) => ContinueIf(ok, StopTerminate(token, thenStart));
        case StopDone(thenStart) =>
          if ok && thenStart {
            StartInternal(alive);
          } else {
            Continue(Idle);
          }
        case StopAdoptedEmit(pid, known, thenStart) =>
          if ok && known.None? {
            CrashWith(LastWrite);
          } else {
            ContinueIf(ok, StopAdoptedProbe(pid, thenStart));
          }
        case StopAdoptedDone(thenStart) =>
          if !ok {
            CrashWith(LastWrite);
          } else if thenStart {
            StartInternal(alive);
          } else {
            Continue(Idle);
          }
        case RestartEmit =>
          if ok {
            StopInternal(true);
          } else {
            Continue(Idle);
          }
        case _ =>
      }
    }

    method ContinueIf(ok: bool, next: Point)
      modifies this`at, this`wait
      ensures Ctl() == Go(old(Ctl()), if ok then next else Idle)
    {
      if ok {
        Continue(next);
      } else {
        Continue(Idle);
      }
    }

    // ----- Exits and monitors -----

    /** An exit leaves nothing alive and, with a running intent, a restart timer. */
    method HandleExit()
      requires Valid() && child.Some? && NoneOf(env.live, child.value.token)
      modifies this, env
      ensures Valid() && View() == Step(old(View()), Exited)
      ensures Alone() && instanceToken.None?
      ensures desiredState.WantRunning? ==> restartTimer && state.Crashed?
      ensures desiredState.WantStopped? ==> restartTimer == old(restartTimer) && state.Stopped?
    {
      hide Inv;
      ghost var s := View();
      StepKeeps(s, Exited);
      ExitIsAlone(s);
      child, instanceToken := None, None;
      if desiredState.WantRunning? {
        state := Crashed;
      } else {
        state := Stopped;
      }
      EmitStatus();
      ScheduleRestart();
    }

    /** So does a spawn that failed after all. */
    method HandleSpawnError()
      requires Valid() && child.Some? && child.value.pid.None?
      modifies this, env
      ensures Valid() && View() == Step(old(View()), SpawnErrored)
      ensures Alone() && instanceToken.None? && state.Crashed?
      ensures desiredState.WantRunning? ==> restartTimer
    {
      hide Inv;
      ghost var s := View();
      StepKeeps(s, SpawnErrored);
      SpawnErrorIsAlone(s);
      child, instanceToken, state := None, None, Crashed;
      EmitStatus();
      ScheduleRestart();
    }

    /** An adopted process that is gone is forgotten only when nothing is alive. */
    method AdoptedGone()
      requires Valid() && adoptedPid.Some? && instanceToken.Some? && Dead(env.live, adoptedPid)
      modifies this, env
      ensures Valid() && View() == Step(old(View()), AdoptedDied)
      ensures Alone() && instanceToken.None?
    {
      hide Inv;
      ghost var s := View();
      StepKeeps(s, AdoptedDied);
      GoneIsAlone(s);
      ForgetAdopted();
      if desiredState.WantRunning? {
        state := Crashed;
      } else {
        state := Stopped;
      }
      EmitStatus();
    }

    /** A check of the adopted process changes only what is reported about it. */
    method AdoptedWasChecked(same: bool)
      requires Valid()
      modifies this, env
      ensures Valid() && View() == Step(old(View()), AdoptedChecked(same))
      ensures adoptedPid.Some? && !same ==> state.Crashed?
      ensures adoptedPid.Some? && same && desiredState.WantRunning? ==> state.Running?
      ensures adoptedPid.Some? && same && desiredState.WantStopped? ==> state == old(state)
      ensures state != old(state) ==> statusTail != [] && statusTail[|statusTail| - 1].state == state
      ensures child == old(child) && adoptedPid == old(adoptedPid) && instanceToken == old(instanceToken)
    {
      hide Inv;
      ghost var s := View();
      StepKeeps(s, AdoptedChecked(same));
      AdoptedHasToken(s);
      if adoptedPid.None? || instanceToken.None? {
        return;
      }
      if !same {
        state := Crashed;
        EmitStatus();
      } else if !state.Running? && desiredState.WantRunning? {
        state := Running;
        EmitStatus();
      }
    }

    /** The monitor starts to stop an adopted process only under a stopped intent. */
    method StopOrphan()
      requires Valid() && at.Idle?
      modifies this, env
      ensures Valid() && View() == Step(old(View()), OrphanStopped)
      ensures at.OrphanEmit? ==> desiredState.WantStopped? && adoptedPid == Some(at.pid) && wait == Behind(|statusTail|)
    {
      hide Inv;
      StepKeeps(View(), OrphanStopped);
      if adoptedPid.None? || instanceToken.None? || desiredState.WantRunning? {
        return;
      }
      state := Stopping;
      AwaitStatus(OrphanEmit(adoptedPid.value));
    }

    /** And to replace a child only under a running intent, after it announced so. */
    method ReplaceUnhealthy()
      requires Valid() && at.Idle?
      modifies this, env
      ensures Valid() && View() == Step(old(View()), OwnedKilled)
      ensures at.OwnedEmit? ==> desiredState.WantRunning? && child.Some? && wait == Behind(|statusTail|)
    {
      hide Inv;
      StepKeeps(View(), OwnedKilled);
      if child.None? || desiredState.WantStopped? {
        return;
      }
      state := Crashed;
      AwaitStatus(OwnedEmit);
    }

    method FireTimer()
      requires Valid() && restartTimer
      modifies this, env
      ensures Valid() && View() == Step(old(View()), TimerFired)
      ensures env.due == old(env.due) + 1 && !restartTimer
    {
      hide Inv;
      StepKeeps(View(), TimerFired);
      restartTimer, env.due := false, env.due + 1;
    }
  }

  // ----- What the invariant says at single points -----

  lemma OccupantIsAlone(s: State)
    requires Inv(s)
    ensures s.c.at.Occupant? || s.c.at.Reserving? ==> s.c.child.None? && s.c.adopted.None? && (s.blind || s.live == {})
    ensures s.c.at.Occupant? ==> s.c.desired.WantRunning?
  {
  }

  lemma ReservingIsAlone(s: State)
    requires Inv(s) && s.c.at.Reserving? && s.c.wait.Written?
    ensures s.c.child.None? && s.c.adopted.None? && (s.blind || s.live == {})
    ensures s.c.wait.ok ==> s.memory == s.durable == Some(Reservation(s.c.at.token))
  {
  }

  lemma StartKeepsAdopted(s: State, alive: bool)
    requires s.c.at.Idle?
    ensures var c := StartHead(s.c, alive);
      && (s.c.adopted.Some? && alive ==> c.adopted == s.c.adopted && c.token == s.c.token)
      && c.pending == s.c.pending && c.desired.WantRunning? && !c.timer
  {
  }

  /** A status that asks for a running backend and says which process it is. */
  predicate RunningIdentity(status: Status) {
    status.desired.WantRunning? && status.pid.Some? && status.token.Some?
  }

  lemma RecoverDecides(s: State, alive: bool, aliveAgain: bool)
    requires Inv(s) && s.c.at.Fresh?
    ensures var c := Backend.Recover(s.c, s.memory, alive, aliveAgain);
      && (c.at.Occupant? && s.memory.Some? ==> s.memory.value.desired.WantRunning?)
      && (s.memory.Some? && RunningIdentity(s.memory.value) && aliveAgain ==> Recovering(c.at))
  {
  }

  lemma IdentifiedKeepsAdopted(s: State, answered: Option<Pid>, alive: bool)
    requires Inv(s) && (s.c.at.WaitIdentity? || s.c.at.StoppedWait?)
    ensures var c := OnIdentified(s.c, answered, alive);
      && (s.c.at.WaitIdentity? && s.c.at.expected.Some? && alive ==> c.adopted == s.c.at.expected)
      && (s.c.at.StoppedWait? ==> !c.at.Occupant? && (alive ==> c.adopted == Some(s.c.at.pid)))
      && (c.adopted.Some? ==> c.child.None? && c.token == Some(s.c.at.token))
  {
  }

  lemma PersistedNeverKills(c: Controller, alive: bool)
    ensures forall prev :: !PersistedRunning(c, prev, alive).at.StopAdoptedKill?
  {
  }

  lemma FailureForgetsNothing(c: Controller)
    ensures var c' := OnTerminated(c, false);
      c'.child == c.child && c'.adopted == c.adopted && c'.token == c.token
  {
  }

  lemma KilledIsAlone(s: State)
    requires Inv(s) && TerminatedTruly(s.c, s.live)
    ensures s.c.at.StoppedKill? || s.c.at.StopAdoptedKill? || s.c.at.OrphanKill?
        ==> s.c.child.None? && (s.blind || s.live == {})
  {
  }

  lemma ExitIsAlone(s: State)
    requires Inv(s) && s.c.child.Some? && NoneOf(s.live, s.c.child.value.token)
    ensures s.c.adopted.None? && (s.blind || s.live == {})
  {
  }

  lemma SpawnErrorIsAlone(s: State)
    requires Inv(s) && s.c.child.Some? && s.c.child.value.pid.None?
    ensures s.c.adopted.None? && (s.blind || s.live == {})
  {
  }

  lemma GoneIsAlone(s: State)
    requires Inv(s) && s.c.adopted.Some? && Dead(s.live, s.c.adopted)
    ensures s.c.child.None? && (s.blind || s.live == {})
  {
  }

  lemma AdoptedHasToken(s: State)
    requires Inv(s)
    ensures s.c.adopted.Some? ==> s.c.token.Some?
  {
  }

  lemma KnownIsCarried(s: State)
    requires Inv(s)
    ensures s.c.child.Some? ==> Carries(s.durable, s.c.child.value.token)
    ensures s.c.adopted.Some? ==> s.c.token.Some? && Carries(s.durable, s.c.token.value)
  {
  }

  /** The points from which a process is terminated. */
  predicate Terminates(at: Point) {
    || at.StoppedKill? || at.OrphanKill? || at.StopTerminate? || at.OwnedTerminate? || at.StopAdoptedProbe?
    || at.StopAdoptedKill?
  }

  lemma ResumeTerminates(c: Controller, alive: bool)
    ensures Terminates(OnResumed(c, alive).at) && !Terminates(c.at) ==> c.wait == Written(true)
    ensures OnResumed(c, alive).child == c.child
  {
  }
}
