// What the lifecycle operations reach when the writes, probes and terminations they wait for succeed: a
// launch runs, a restart starts again, a stop ends stopped, a crash is followed by a new start, and a
// recovery adopts what it finds.
module BackendProgress {
  import opened Wrappers
  import opened Backend
  import opened BackendSafety
  import opened BackendRuns

  const WRITTEN := StatusWritten(true)

  const ANNOUNCED: seq<Event> := [WRITTEN, Resumed(true)]

  // ----- Runs -----

  /** These events are possible one after the other and end in this state. */
  ghost predicate Leads(s: State, events: seq<Event>, after: State) {
    AllPossible(s, events) && Run(s, events) == after
  }

  lemma Then(s: State, a: seq<Event>, mid: State, b: seq<Event>, after: State)
    requires Leads(s, a, mid) && Leads(mid, b, after)
    ensures Leads(s, a + b, after)
  {
    hide Run, AllPossible;
    RunConcat(s, a, b);
  }

  lemma One(s: State, e: Event)
    requires Possible(s, e)
    ensures Leads(s, [e], Step(s, e))
  {
    hide Step, Possible;
    RunNone(s);
    assert [e][..0] == [] && [e][..1] == [e];
    RunPrefix(s, [e], 0);
  }

  lemma Two(s: State, e: Event, f: Event)
    requires Possible(s, e) && Possible(Step(s, e), f)
    ensures Leads(s, [e, f], Step(Step(s, e), f))
  {
    hide Step, Possible, Run, AllPossible;
    One(s, e);
    One(Step(s, e), f);
    Then(s, [e], Step(s, e), [f], Step(Step(s, e), f));
    assert [e] + [f] == [e, f];
  }

  lemma Three(s: State, e: Event, f: Event, g: Event)
    requires Possible(s, e) && Possible(Step(s, e), f) && Possible(Step(Step(s, e), f), g)
    ensures Leads(s, [e, f, g], Step(Step(Step(s, e), f), g))
  {
    hide Step, Possible, Run, AllPossible;
    Two(s, e, f);
    One(Step(Step(s, e), f), g);
    Then(s, [e, f], Step(Step(s, e), f), [g], Step(Step(Step(s, e), f), g));
    assert [e, f] + [g] == [e, f, g];
  }

  // ----- Single steps -----

  /** The event is a step of the controller alone. */
  predicate Alone(e: Event) {
    || e.StopAsked? || e.RestartAsked? || e.StartAsked? || e.Resumed? || e.Probed? || e.Terminated? || e.Exited?
    || e.AdoptedDied? || e.OrphanStopped? || e.OwnedKilled? || e.Rescheduled? || e.Readied?
  }

  lemma Acts(s: State, e: Event)
    requires Alone(e)
    ensures Step(s, e) == s.(c := Act(s.c, e))
  {
  }

  /** The only pending write succeeds. */
  lemma Writes(s: State)
    requires |s.c.pending| == 1 && (s.c.wait.Behind? ==> s.c.wait.n == 1)
    ensures var status := Some(s.c.pending[0]);
      Step(s, WRITTEN) == s.(c := s.c.(pending := [], wait := if s.c.wait.Behind? then Written(true) else s.c.wait),
                             memory := status, durable := status)
    ensures Possible(s, WRITTEN)
  {
  }

  lemma Dies(s: State, q: Process)
    requires s.live == {q}
    ensures Step(s, Died(q)) == s.(live := {}) && Possible(s, Died(q))
  {
    assert s.live - {q} == {};
  }

  /** Nothing is alive, so whatever is reported dead is. */
  lemma NobodyLives(s: State, e: Event)
    requires s.live == {} && (e.Exited? || e.AdoptedDied? || (e.Terminated? && s.c.child.None?) || e.Resumed?)
    ensures Possible(s, e)
  {
  }

  /** The write of a stopping status, and what follows it. */
  lemma WritesAndResumes(s: State)
    requires |s.c.pending| == 1 && s.c.wait == Behind(1)
    ensures var status := Some(s.c.pending[0]);
      var c := OnResumed(s.c.(pending := [], wait := Written(true)), true);
      Leads(s, ANNOUNCED, s.(c := c, memory := status, durable := status))
  {
    hide Run, AllPossible, Step, OnResumed;
    Writes(s);
    Acts(Step(s, WRITTEN), Resumed(true));
    Two(s, WRITTEN, Resumed(true));
  }

  // ----- Launching -----

  /** A start stands before its launch: nothing is alive, and nothing waits. */
  predicate Launching(s: State) {
    && s.c.at.Occupant? && s.c.desired.WantRunning? && s.c.child.None? && s.c.adopted.None? && s.c.pending == []
    && s.live == {}
  }

  /** The backend runs, as a child, and the durable status says so. */
  predicate RunsOwned(s: State, token: nat, pid: Pid) {
    && s.c == Controller(Some(Child(token, Some(pid))), None, Some(token), Running, WantRunning, s.c.timer, Idle,
                         NoWrite, [])
    && s.live == {Process(token, pid)}
    && s.durable == s.memory == Some(Status(Running, WantRunning, Some(pid), Some(token)))
  }

  /** The backend runs, as an adopted process, and the durable status says so. */
  predicate RunsAdopted(s: State, token: nat, pid: Pid) {
    && s.c == Controller(None, Some(pid), Some(token), Running, WantRunning, false, Idle, NoWrite, [])
    && s.live == {Process(token, pid)}
    && s.durable == s.memory == Some(Status(Running, WantRunning, Some(pid), Some(token)))
  }

  /** Nothing runs, nothing is wanted, and the durable status says so. */
  predicate IsStopped(s: State) {
    && s.c == Controller(None, None, None, Stopped, WantStopped, false, Idle, NoWrite, [])
    && s.live == {}
    && s.durable == s.memory == Some(Status(Stopped, WantStopped, None, None))
  }

  function Launch(token: nat, pid: Pid, alive: bool): seq<Event> {
    [Occupied(false, token), WRITTEN] + ([Reserved(Launched(Some(pid))), WRITTEN] + ([Resumed(alive), Readied(true)]
      + [WRITTEN, Resumed(alive)]))
  }

  function Reserves(s: State, token: nat): State {
    var c := Controller(None, None, Some(token), Starting, WantRunning, s.c.timer, Reserving(token), Written(true), []);
    s.(c := c, memory := Some(Reservation(token)), durable := Some(Reservation(token)))
  }

  lemma LaunchReserves(s: State, token: nat)
    requires Launching(s)
    ensures Leads(s, [Occupied(false, token), WRITTEN], Reserves(s, token))
  {
    hide Run, AllPossible;
    Two(s, Occupied(false, token), WRITTEN);
  }

  function Publishes(s: State, token: nat, pid: Pid): State {
    var c := Controller(Some(Child(token, Some(pid))), None, Some(token), Starting, WantRunning, s.c.timer,
                        Publishing(token), Written(true), []);
    var status := Some(Status(Starting, WantRunning, Some(pid), Some(token)));
    s.(c := c, memory := status, durable := status, live := {Process(token, pid)})
  }

  lemma ReservedPublishes(s: State, token: nat, pid: Pid)
    requires s == Reserves(s, token) && s.live == {}
    ensures Leads(s, [Reserved(Launched(Some(pid))), WRITTEN], Publishes(s, token, pid))
  {
    hide Run, AllPossible;
    assert s.live + {Process(token, pid)} == {Process(token, pid)};
    Two(s, Reserved(Launched(Some(pid))), WRITTEN);
  }

  function Announces(s: State, token: nat, pid: Pid): State {
    var c := Controller(Some(Child(token, Some(pid))), None, Some(token), Running, WantRunning, s.c.timer,
                        Announcing(token), Behind(1), [Status(Running, WantRunning, Some(pid), Some(token))]);
    s.(c := c)
  }

  lemma PublishedAnnounces(s: State, token: nat, pid: Pid, alive: bool)
    requires s == Publishes(s, token, pid)
    ensures Leads(s, [Resumed(alive), Readied(true)], Announces(s, token, pid))
  {
    hide Run, AllPossible;
    Two(s, Resumed(alive), Readied(true));
  }

  lemma AnnouncedRuns(s: State, token: nat, pid: Pid, alive: bool)
    requires s == Announces(s, token, pid) && s.live == {Process(token, pid)}
    ensures RunsOwned(Step(Step(s, WRITTEN), Resumed(alive)), token, pid)
    ensures Leads(s, [WRITTEN, Resumed(alive)], Step(Step(s, WRITTEN), Resumed(alive)))
  {
    hide Run, AllPossible;
    Two(s, WRITTEN, Resumed(alive));
  }

  /** A launch whose writes, spawn and readiness succeed runs. */
  lemma LaunchRuns(s: State, token: nat, pid: Pid, alive: bool)
    requires Launching(s)
    ensures AllPossible(s, Launch(token, pid, alive)) && RunsOwned(Run(s, Launch(token, pid, alive)), token, pid)
  {
    hide Run, AllPossible, Step, RunsOwned, Possible;
    LaunchReserves(s, token);
    var s1 := Reserves(s, token);
    ReservedPublishes(s1, token, pid);
    var s2 := Publishes(s1, token, pid);
    PublishedAnnounces(s2, token, pid, alive);
    var s3 := Announces(s2, token, pid);
    AnnouncedRuns(s3, token, pid, alive);
    var s4 := Step(Step(s3, WRITTEN), Resumed(alive));
    var announce: seq<Event> := [WRITTEN, Resumed(alive)];
    Then(s2, [Resumed(alive), Readied(true)], s3, announce, s4);
    Then(s1, [Reserved(Launched(Some(pid))), WRITTEN], s2, [Resumed(alive), Readied(true)] + announce, s4);
    Then(s, [Occupied(false, token), WRITTEN], s1,
         [Reserved(Launched(Some(pid))), WRITTEN] + ([Resumed(alive), Readied(true)] + announce), s4);
  }

  /** What leads to a launch leads on to a running backend. */
  lemma AndRuns(s: State, events: seq<Event>, token: nat, pid: Pid, alive: bool)
    requires AllPossible(s, events) && Launching(Run(s, events))
    ensures var all := events + Launch(token, pid, alive);
      AllPossible(s, all) && RunsOwned(Run(s, all), token, pid)
  {
    hide Run, AllPossible, Launching, RunsOwned, Launch;
    LaunchRuns(Run(s, events), token, pid, alive);
    Then(s, events, Run(s, events), Launch(token, pid, alive),
         Run(Run(s, events), Launch(token, pid, alive)));
  }

  // ----- Starting -----

  /** No lifecycle operation is under way and no write waits. */
  predicate AtRest(c: Controller) {
    c.at.Idle? && c.wait.NoWrite? && c.pending == []
  }

  predicate Nothing(s: State) {
    AtRest(s.c) && s.c.child.None? && s.c.adopted.None? && s.live == {}
  }

  /** A start from nothing runs. */
  lemma StartRuns(s: State, token: nat, pid: Pid, alive: bool)
    requires Nothing(s)
    ensures var events := [StartAsked(alive)] + Launch(token, pid, alive);
      AllPossible(s, events) && RunsOwned(Run(s, events), token, pid)
  {
    hide Run, AllPossible, Launch, RunsOwned;
    One(s, StartAsked(alive));
    AndRuns(s, [StartAsked(alive)], token, pid, alive);
  }

  /** So does a start whose restart timer has come due. */
  lemma TimerRuns(s: State, token: nat, pid: Pid, alive: bool)
    requires Nothing(s) && s.c.timer
    ensures var events := [TimerFired, Due(alive)] + Launch(token, pid, alive);
      AllPossible(s, events) && RunsOwned(Run(s, events), token, pid)
  {
    hide Run, AllPossible, Launch, RunsOwned;
    Two(s, TimerFired, Due(alive));
    AndRuns(s, [TimerFired, Due(alive)], token, pid, alive);
  }

  /** A supervisor that finds no status, or one of a running intent whose process is gone, starts. */
  lemma RecoveryRuns(durable: Option<Status>, token: nat, pid: Pid, alive: bool)
    requires durable.Some? ==> durable.value.desired.WantRunning?
    requires durable.Some? ==> durable.value.pid.Some? || durable.value.token.None?
    ensures var events := [Recovered(false, false)] + Launch(token, pid, alive);
      AllPossible(Boot(durable), events) && RunsOwned(Run(Boot(durable), events), token, pid)
  {
    hide Run, AllPossible, Launch, RunsOwned;
    One(Boot(durable), Recovered(false, false));
    AndRuns(Boot(durable), [Recovered(false, false)], token, pid, alive);
  }

  // ----- Stopping -----

  /** A child with a pid is alive. */
  predicate HasChild(s: State, token: nat, pid: Pid) {
    AtRest(s.c) && s.c.child == Some(Child(token, Some(pid))) && s.c.adopted.None? && s.live == {Process(token, pid)}
  }

  /** An adopted process is alive. */
  predicate HasAdopted(s: State, token: nat, pid: Pid) {
    AtRest(s.c) && s.c.child.None? && s.c.adopted == Some(pid) && s.c.token == Some(token)
    && s.live == {Process(token, pid)}
  }

  /** The stopping status of a child was written, and its termination is under way. */
  predicate Killing(s: State, token: nat, pid: Pid, thenStart: bool) {
    && s.c.at == StopTerminate(token, thenStart) && s.c.wait.NoWrite? && s.c.pending == []
    && s.c.child == Some(Child(token, Some(pid))) && s.c.adopted.None? && s.c.desired.WantStopped? && !s.c.timer
    && s.live == {Process(token, pid)}
  }

  predicate KillingAdopted(s: State, token: nat, pid: Pid, thenStart: bool) {
    && s.c.at == StopAdoptedKill(pid, thenStart) && s.c.wait.NoWrite? && s.c.pending == []
    && s.c.child.None? && s.c.adopted == Some(pid) && s.c.token == Some(token) && s.c.desired.WantStopped? && !s.c.timer
    && s.live == {Process(token, pid)}
  }

  /** The stop is done and its status waits to be written. */
  predicate StopWaits(s: State, thenStart: bool) {
    && (s.c.at == StopDone(thenStart) || s.c.at == StopAdoptedDone(thenStart))
    && s.c.wait == Behind(1) && s.c.pending == [Status(Stopped, WantStopped, None, None)]
    && s.c == Controller(None, None, None, Stopped, WantStopped, false, s.c.at, s.c.wait, s.c.pending)
    && s.live == {}
  }

  lemma ChildDies(s: State, token: nat, pid: Pid, thenStart: bool)
    requires Killing(s, token, pid, thenStart)
    ensures AllPossible(s, [Died(Process(token, pid)), Exited])
    ensures var s' := Run(s, [Died(Process(token, pid)), Exited]);
      && s'.c == Controller(None, None, None, Stopped, WantStopped, false, StopTerminate(token, thenStart), NoWrite,
                            [Status(Stopped, WantStopped, None, None)])
      && s'.live == {}
  {
    hide Run, AllPossible;
    assert s.live - {Process(token, pid)} == {};
    Two(s, Died(Process(token, pid)), Exited);
  }

  lemma ChildIsGone(s: State, token: nat, thenStart: bool)
    requires s.live == {}
    requires s.c == Controller(None, None, None, Stopped, WantStopped, false, StopTerminate(token, thenStart), NoWrite,
                               [Status(Stopped, WantStopped, None, None)])
    ensures AllPossible(s, [Terminated(true), WRITTEN]) && StopWaits(Run(s, [Terminated(true), WRITTEN]), thenStart)
  {
    hide Run, AllPossible;
    Two(s, Terminated(true), WRITTEN);
  }

  function Killed(token: nat, pid: Pid): seq<Event> {
    [Died(Process(token, pid)), Exited] + [Terminated(true), WRITTEN]
  }

  lemma KilledStops(s: State, token: nat, pid: Pid, thenStart: bool)
    requires Killing(s, token, pid, thenStart)
    ensures AllPossible(s, Killed(token, pid)) && StopWaits(Run(s, Killed(token, pid)), thenStart)
  {
    hide Run, AllPossible, Killing, StopWaits;
    ChildDies(s, token, pid, thenStart);
    var mid := Run(s, [Died(Process(token, pid)), Exited]);
    ChildIsGone(mid, token, thenStart);
    Then(s, [Died(Process(token, pid)), Exited], mid, [Terminated(true), WRITTEN],
         Run(mid, [Terminated(true), WRITTEN]));
  }

  function KilledAdopted(token: nat, pid: Pid): seq<Event> {
    [Died(Process(token, pid)), Terminated(true)]
  }

  lemma KilledAdoptedStops(s: State, token: nat, pid: Pid, thenStart: bool)
    requires KillingAdopted(s, token, pid, thenStart)
    ensures AllPossible(s, KilledAdopted(token, pid)) && StopWaits(Run(s, KilledAdopted(token, pid)), thenStart)
  {
    hide Run, AllPossible;
    assert s.live - {Process(token, pid)} == {};
    Two(s, Died(Process(token, pid)), Terminated(true));
  }

  lemma StoppedRests(s: State, alive: bool)
    requires StopWaits(s, false)
    ensures AllPossible(s, [WRITTEN, Resumed(alive)]) && IsStopped(Run(s, [WRITTEN, Resumed(alive)]))
  {
    hide Run, AllPossible;
    Two(s, WRITTEN, Resumed(alive));
  }

  lemma StoppedStarts(s: State, alive: bool)
    requires StopWaits(s, true)
    ensures AllPossible(s, [WRITTEN, Resumed(alive)]) && Launching(Run(s, [WRITTEN, Resumed(alive)]))
  {
    hide Run, AllPossible;
    Two(s, WRITTEN, Resumed(alive));
  }


  /** A stop was asked for, or a restart whose own status was written. */
  function Begin(thenStart: bool): seq<Event> {
    if thenStart then [RestartAsked, WRITTEN, Resumed(true)] else [StopAsked]
  }

  /** The stopping status of a child, or of an adopted process, waits to be written. */
  predicate StopAnnounced(s: State, at: Point) {
    s.c.at == at && s.c.wait == Behind(1) && |s.c.pending| == 1 && s.c.desired.WantStopped? && !s.c.timer
  }

  lemma StopBegins(s: State, thenStart: bool)
    requires AtRest(s.c) && (s.c.adopted.Some? || s.c.child.Some?)
    ensures AllPossible(s, Begin(thenStart))
    ensures var s' := Run(s, Begin(thenStart));
      && s'.live == s.live && s'.c.child == s.c.child && s'.c.adopted == s.c.adopted && s'.c.token == s.c.token
      && StopAnnounced(s', if s.c.adopted.Some? then StopAdoptedEmit(s.c.adopted.value, s.c.token, thenStart)
                           else StopEmit(s.c.child.value.token, thenStart))
  {
    hide Run, AllPossible, Step;
    if thenStart {
      Acts(s, RestartAsked);
      RestartBegins(s);
    } else {
      Acts(s, StopAsked);
      One(s, StopAsked);
    }
  }

  /** The first write of a restart is followed by the head of the stop. */
  lemma RestartBegins(s: State)
    requires AtRest(s.c)
    ensures AllPossible(s, Begin(true))
    ensures var s' := Run(s, Begin(true));
      s'.live == s.live && s'.c == StopHead(s.c.(state := Restarting, at := RestartEmit, wait := Written(true)), true)
  {
    hide Run, AllPossible, Step, StopHead;
    Acts(s, RestartAsked);
    var s1 := Step(s, RestartAsked);
    One(s, RestartAsked);
    WritesAndResumes(s1);
    Then(s, [RestartAsked], s1, ANNOUNCED, Run(s1, ANNOUNCED));
    assert [RestartAsked] + ANNOUNCED == Begin(true);
  }

  lemma NothingBegins(s: State, thenStart: bool)
    requires Nothing(s) && s.c.token.None?
    ensures AllPossible(s, Begin(thenStart)) && StopWaits(Run(s, Begin(thenStart)), thenStart)
  {
    hide Run, AllPossible, Step;
    if thenStart {
      RestartBegins(s);
    } else {
      Acts(s, StopAsked);
      One(s, StopAsked);
    }
  }

  lemma ChildIsKilled(s: State, token: nat, pid: Pid, thenStart: bool)
    requires StopAnnounced(s, StopEmit(token, thenStart)) && s.c.child == Some(Child(token, Some(pid)))
    requires s.c.adopted.None? && s.live == {Process(token, pid)}
    ensures AllPossible(s, ANNOUNCED) && Killing(Run(s, ANNOUNCED), token, pid, thenStart)
  {
    hide Run, AllPossible;
    WritesAndResumes(s);
  }

  const VERIFIED: seq<Event> := [WRITTEN, Resumed(true), Probed(true, true)]

  lemma AdoptedIsKilled(s: State, token: nat, pid: Pid, thenStart: bool)
    requires StopAnnounced(s, StopAdoptedEmit(pid, Some(token), thenStart)) && s.c.child.None?
    requires s.c.adopted == Some(pid) && s.c.token == Some(token) && s.live == {Process(token, pid)}
    ensures AllPossible(s, VERIFIED) && KillingAdopted(Run(s, VERIFIED), token, pid, thenStart)
  {
    hide Run, AllPossible, Step;
    WritesAndResumes(s);
    var s1 := Run(s, ANNOUNCED);
    assert s1.c.at == StopAdoptedProbe(pid, thenStart);
    Acts(s1, Probed(true, true));
    One(s1, Probed(true, true));
    Then(s, ANNOUNCED, s1, [Probed(true, true)], Step(s1, Probed(true, true)));
    assert ANNOUNCED + [Probed(true, true)] == VERIFIED;
  }

  /** The termination of a child, or of an adopted process, from the request to its last status. */
  function ChildStop(token: nat, pid: Pid, thenStart: bool): seq<Event> {
    Begin(thenStart) + (ANNOUNCED + Killed(token, pid))
  }

  function AdoptedStop(token: nat, pid: Pid, thenStart: bool): seq<Event> {
    Begin(thenStart) + (VERIFIED + KilledAdopted(token, pid))
  }

  lemma ChildStops(s: State, token: nat, pid: Pid, thenStart: bool)
    requires HasChild(s, token, pid)
    ensures var events := ChildStop(token, pid, thenStart);
      AllPossible(s, events) && StopWaits(Run(s, events), thenStart)
  {
    hide Run, AllPossible, StopAnnounced, Killing, StopWaits, Begin, Killed;
    StopBegins(s, thenStart);
    var s1 := Run(s, Begin(thenStart));
    ChildIsKilled(s1, token, pid, thenStart);
    var s2 := Run(s1, ANNOUNCED);
    KilledStops(s2, token, pid, thenStart);
    Then(s1, ANNOUNCED, s2, Killed(token, pid), Run(s2, Killed(token, pid)));
    Then(s, Begin(thenStart), s1, ANNOUNCED + Killed(token, pid), Run(s2, Killed(token, pid)));
  }

  lemma AdoptedStops(s: State, token: nat, pid: Pid, thenStart: bool)
    requires HasAdopted(s, token, pid)
    ensures var events := AdoptedStop(token, pid, thenStart);
      AllPossible(s, events) && StopWaits(Run(s, events), thenStart)
  {
    hide Run, AllPossible, StopAnnounced, KillingAdopted, StopWaits, Begin, KilledAdopted;
    StopBegins(s, thenStart);
    var s1 := Run(s, Begin(thenStart));
    AdoptedIsKilled(s1, token, pid, thenStart);
    var s2 := Run(s1, VERIFIED);
    KilledAdoptedStops(s2, token, pid, thenStart);
    Then(s1, VERIFIED, s2, KilledAdopted(token, pid), Run(s2, KilledAdopted(token, pid)));
    Then(s, Begin(thenStart), s1, VERIFIED + KilledAdopted(token, pid), Run(s2, KilledAdopted(token, pid)));
  }

  lemma StopEnds(s: State, events: seq<Event>)
    requires AllPossible(s, events) && StopWaits(Run(s, events), false)
    ensures AllPossible(s, events + ANNOUNCED) && IsStopped(Run(s, events + ANNOUNCED))
  {
    hide Run, AllPossible, StopWaits, IsStopped;
    StoppedRests(Run(s, events), true);
    Then(s, events, Run(s, events), ANNOUNCED, Run(Run(s, events), ANNOUNCED));
  }

  lemma RestartGoesOn(s: State, events: seq<Event>, token: nat, pid: Pid)
    requires AllPossible(s, events) && StopWaits(Run(s, events), true)
    ensures var all := events + ANNOUNCED + Launch(token, pid, true);
      AllPossible(s, all) && RunsOwned(Run(s, all), token, pid)
  {
    hide Run, AllPossible, StopWaits, Launching, RunsOwned, Launch;
    StoppedStarts(Run(s, events), true);
    Then(s, events, Run(s, events), ANNOUNCED, Run(Run(s, events), ANNOUNCED));
    AndRuns(s, events + ANNOUNCED, token, pid, true);
  }

  /** A stop whose writes and termination succeed ends stopped, with nothing alive and a durable stopped
      intent: for a child, for an adopted process that is verified, and for nothing at all. */
  lemma StopEndsStopped(s: State, token: nat, pid: Pid)
    ensures HasChild(s, token, pid) ==>
      var events := ChildStop(token, pid, false) + ANNOUNCED;
      AllPossible(s, events) && IsStopped(Run(s, events))
    ensures HasAdopted(s, token, pid) ==>
      var events := AdoptedStop(token, pid, false) + ANNOUNCED;
      AllPossible(s, events) && IsStopped(Run(s, events))
    ensures Nothing(s) && s.c.token.None? ==>
      var events := [StopAsked] + ANNOUNCED;
      AllPossible(s, events) && IsStopped(Run(s, events))
  {
    hide Run, AllPossible, HasChild, HasAdopted, Nothing, IsStopped, StopWaits, ChildStop, AdoptedStop;
    if HasChild(s, token, pid) {
      ChildStops(s, token, pid, false);
      StopEnds(s, ChildStop(token, pid, false));
    }
    if HasAdopted(s, token, pid) {
      AdoptedStops(s, token, pid, false);
      StopEnds(s, AdoptedStop(token, pid, false));
    }
    if Nothing(s) && s.c.token.None? {
      NothingBegins(s, false);
      StopEnds(s, Begin(false));
    }
  }

  /** A restart whose writes, termination and launch succeed runs a new process: in place of a child, of an
      adopted process that is verified, and of nothing at all. */
  lemma RestartRuns(s: State, token: nat, pid: Pid, token': nat, pid': Pid)
    ensures HasChild(s, token, pid) ==>
      var events := ChildStop(token, pid, true) + ANNOUNCED + Launch(token', pid', true);
      AllPossible(s, events) && RunsOwned(Run(s, events), token', pid')
    ensures HasAdopted(s, token, pid) ==>
      var events := AdoptedStop(token, pid, true) + ANNOUNCED + Launch(token', pid', true);
      AllPossible(s, events) && RunsOwned(Run(s, events), token', pid')
    ensures Nothing(s) && s.c.token.None? ==>
      var events := [RestartAsked, WRITTEN, Resumed(true)] + ANNOUNCED + Launch(token', pid', true);
      AllPossible(s, events) && RunsOwned(Run(s, events), token', pid')
  {
    hide Run, AllPossible, HasChild, HasAdopted, Nothing, RunsOwned, StopWaits, ChildStop, AdoptedStop, Launch;
    if HasChild(s, token, pid) {
      ChildStops(s, token, pid, true);
      RestartGoesOn(s, ChildStop(token, pid, true), token', pid');
    }
    if HasAdopted(s, token, pid) {
      AdoptedStops(s, token, pid, true);
      RestartGoesOn(s, AdoptedStop(token, pid, true), token', pid');
    }
    if Nothing(s) && s.c.token.None? {
      NothingBegins(s, true);
      RestartGoesOn(s, Begin(true), token', pid');
    }
  }

  // ----- Coming back -----

  /** Nothing is alive, a running intent holds, and a restart timer is set. */
  predicate ComesBack(s: State) {
    Nothing(s) && s.c.timer && s.c.desired.WantRunning?
  }

  /** A child that died, an adopted process that died, and a child that is unhealthy are replaced. */
  lemma DeathComesBack(s: State, token: nat, pid: Pid)
    requires s.c.desired.WantRunning?
    ensures HasChild(s, token, pid) ==>
      var events := [Died(Process(token, pid)), Exited, WRITTEN];
      AllPossible(s, events) && ComesBack(Run(s, events))
    ensures HasAdopted(s, token, pid) ==>
      var events := [Died(Process(token, pid)), AdoptedDied] + [WRITTEN, Rescheduled];
      AllPossible(s, events) && ComesBack(Run(s, events))
  {
    hide Run, AllPossible, ComesBack, HasChild, HasAdopted;
    if HasChild(s, token, pid) {
      ChildComesBack(s, token, pid);
    }
    if HasAdopted(s, token, pid) {
      AdoptedComesBack(s, token, pid);
    }
  }

  lemma ChildComesBack(s: State, token: nat, pid: Pid)
    requires s.c.desired.WantRunning? && HasChild(s, token, pid)
    ensures var events := [Died(Process(token, pid)), Exited, WRITTEN];
      AllPossible(s, events) && ComesBack(Run(s, events))
  {
    hide Run, AllPossible, Step, Possible;
    var q := Process(token, pid);
    Dies(s, q);
    var s1 := s.(live := {});
    NobodyLives(s1, Exited);
    Acts(s1, Exited);
    Writes(Step(s1, Exited));
    Three(s, Died(q), Exited, WRITTEN);
  }

  lemma AdoptedComesBack(s: State, token: nat, pid: Pid)
    requires s.c.desired.WantRunning? && HasAdopted(s, token, pid)
    ensures var events := [Died(Process(token, pid)), AdoptedDied] + [WRITTEN, Rescheduled];
      AllPossible(s, events) && ComesBack(Run(s, events))
  {
    hide Run, AllPossible, Step;
    var q := Process(token, pid);
    Dies(s, q);
    var s1 := s.(live := {});
    NobodyLives(s1, AdoptedDied);
    Acts(s1, AdoptedDied);
    Two(s, Died(q), AdoptedDied);
    var s2 := Step(s1, AdoptedDied);
    Writes(s2);
    Acts(Step(s2, WRITTEN), Rescheduled);
    Two(s2, WRITTEN, Rescheduled);
    Then(s, [Died(q), AdoptedDied], s2, [WRITTEN, Rescheduled], Step(Step(s2, WRITTEN), Rescheduled));
  }

  /** A child that is unhealthy is announced, terminated and replaced. */
  lemma UnhealthyComesBack(s: State, token: nat, pid: Pid)
    requires s.c.desired.WantRunning? && HasChild(s, token, pid)
    ensures var events := [OwnedKilled] + (ANNOUNCED + ([Died(Process(token, pid)), Exited]
                          + [Terminated(true), WRITTEN]));
      AllPossible(s, events) && ComesBack(Run(s, events))
  {
    hide Run, AllPossible, Step, ComesBack;
    Acts(s, OwnedKilled);
    One(s, OwnedKilled);
    var s1 := Step(s, OwnedKilled);
    WritesAndResumes(s1);
    var s2 := Run(s1, ANNOUNCED);
    assert s2.c.at.OwnedTerminate?;
    EndsAndComesBack(s2, token, pid);
    var rest: seq<Event> := [Died(Process(token, pid)), Exited] + [Terminated(true), WRITTEN];
    Then(s1, ANNOUNCED, s2, rest, Run(s2, rest));
    Then(s, [OwnedKilled], s1, ANNOUNCED + rest, Run(s2, rest));
  }

  /** A child whose termination is under way ends, and a timer is set. */
  lemma EndsAndComesBack(s: State, token: nat, pid: Pid)
    requires s.c.at.OwnedTerminate? || s.c.at == Aborting(token)
    requires s.c.wait.NoWrite? && s.c.pending == [] && s.c.desired.WantRunning? && s.c.adopted.None?
    requires s.c.child == Some(Child(token, Some(pid))) && s.live == {Process(token, pid)}
    ensures var events := [Died(Process(token, pid)), Exited] + [Terminated(true), WRITTEN];
      AllPossible(s, events) && ComesBack(Run(s, events))
  {
    hide Run, AllPossible, Step, Possible, OnTerminated;
    var q := Process(token, pid);
    Dies(s, q);
    var s1 := s.(live := {});
    NobodyLives(s1, Exited);
    Acts(s1, Exited);
    Two(s, Died(q), Exited);
    var s2 := Step(s1, Exited);
    NobodyLives(s2, Terminated(true));
    Acts(s2, Terminated(true));
    EndsIdle(s2.c);
    Writes(Step(s2, Terminated(true)));
    Two(s2, Terminated(true), WRITTEN);
    Then(s, [Died(q), Exited], s2, [Terminated(true), WRITTEN], Step(Step(s2, Terminated(true)), WRITTEN));
  }

  lemma EndsIdle(c: Controller)
    requires c.at.OwnedTerminate? || c.at.Aborting?
    ensures OnTerminated(c, true) == c.(at := Idle, wait := NoWrite)
  {
  }

  /** A launch that fails is tried again: when its reservation was not written, when the spawn threw, and
      when the process did not become ready and was terminated. */
  lemma FailedLaunchComesBack(s: State, token: nat, pid: Pid)
    requires Launching(s)
    ensures var events := [Occupied(false, token), StatusWritten(false), Reserved(Threw)];
      AllPossible(s, events) && ComesBack(Run(s, events))
    ensures var events := [Occupied(false, token), WRITTEN] + [Reserved(Threw), WRITTEN];
      AllPossible(s, events) && ComesBack(Run(s, events))
    ensures var events := [Occupied(false, token), WRITTEN] + ([Reserved(Launched(Some(pid))), WRITTEN]
                          + ([Resumed(true), Readied(false)] + ([Died(Process(token, pid)), Exited]
                          + [Terminated(true), WRITTEN])));
      AllPossible(s, events) && ComesBack(Run(s, events))
  {
    hide Run, AllPossible, Step, Possible;
    UnwrittenComesBack(s, token);
    LaunchReserves(s, token);
    var s1 := Reserves(s, token);
    ThrownComesBack(s1, token);
    Then(s, [Occupied(false, token), WRITTEN], s1, [Reserved(Threw), WRITTEN], Run(s1, [Reserved(Threw), WRITTEN]));
    ReservedPublishes(s1, token, pid);
    var s2 := Publishes(s1, token, pid);
    assert s2 == Publishes(s2, token, pid);
    UnreadyComesBack(s2, token, pid);
    var rest: seq<Event> := [Resumed(true), Readied(false)] + ([Died(Process(token, pid)), Exited]
      + [Terminated(true), WRITTEN]);
    Then(s1, [Reserved(Launched(Some(pid))), WRITTEN], s2, rest, Run(s2, rest));
    Then(s, [Occupied(false, token), WRITTEN], s1, [Reserved(Launched(Some(pid))), WRITTEN] + rest, Run(s2, rest));
  }

  lemma UnwrittenComesBack(s: State, token: nat)
    requires Launching(s)
    ensures var events := [Occupied(false, token), StatusWritten(false), Reserved(Threw)];
      AllPossible(s, events) && ComesBack(Run(s, events))
  {
    hide Run, AllPossible;
    Three(s, Occupied(false, token), StatusWritten(false), Reserved(Threw));
  }

  lemma ThrownComesBack(s: State, token: nat)
    requires s == Reserves(s, token) && s.live == {}
    ensures AllPossible(s, [Reserved(Threw), WRITTEN]) && ComesBack(Run(s, [Reserved(Threw), WRITTEN]))
  {
    hide Run, AllPossible, Step;
    Throws(s, token);
    Writes(Step(s, Reserved(Threw)));
    Two(s, Reserved(Threw), WRITTEN);
  }

  lemma Throws(s: State, token: nat)
    requires s == Reserves(s, token) && s.live == {}
    ensures Step(s, Reserved(Threw))
         == s.(c := Controller(None, None, None, Crashed, WantRunning, true, Idle, NoWrite,
                               [Status(Crashed, WantRunning, None, None)]))
  {
    assert s.live + {} == s.live;
  }

  lemma UnreadyComesBack(s: State, token: nat, pid: Pid)
    requires s == Publishes(s, token, pid)
    ensures var events := [Resumed(true), Readied(false)] + ([Died(Process(token, pid)), Exited]
                          + [Terminated(true), WRITTEN]);
      AllPossible(s, events) && ComesBack(Run(s, events))
  {
    hide Run, AllPossible, Step, ComesBack;
    Acts(s, Resumed(true));
    var s1 := Step(s, Resumed(true));
    Acts(s1, Readied(false));
    var s2 := Step(s1, Readied(false));
    Two(s, Resumed(true), Readied(false));
    EndsAndComesBack(s2, token, pid);
    var rest: seq<Event> := [Died(Process(token, pid)), Exited] + [Terminated(true), WRITTEN];
    Then(s, [Resumed(true), Readied(false)], s2, rest, Run(s2, rest));
  }

  /** And what comes back runs again. */
  lemma ComesBackAndRuns(s: State, token: nat, pid: Pid, alive: bool)
    requires ComesBack(s)
    ensures var events := [TimerFired, Due(alive)] + Launch(token, pid, alive);
      AllPossible(s, events) && RunsOwned(Run(s, events), token, pid)
  {
    hide Run, AllPossible, Launch, RunsOwned;
    TimerRuns(s, token, pid, alive);
  }

  // ----- Supervisor crashes -----

  predicate Survives(s: State, status: Status, token: nat, pid: Pid) {
    s.durable == Some(status) && s.live == {Process(token, pid)}
  }

  /** A supervisor that crashes beside a running backend adopts it: when its health answers at once, when
      it answers before the deadline, and, from a mere reservation, when it answers under any pid. */
  lemma CrashIsSurvived(s: State, status: Status, token: nat, pid: Pid)
    requires Survives(s, status, token, pid)
    ensures status.desired.WantRunning? && status.pid == Some(pid) && status.token == Some(token) ==>
      && (var events := [Crash, Recovered(true, true), Probed(true, true)] + ANNOUNCED;
          AllPossible(s, events) && RunsAdopted(Run(s, events), token, pid))
      && (var events := [Crash, Recovered(true, true)] + [Probed(false, true), Identified(Some(pid), true)] + ANNOUNCED;
          AllPossible(s, events) && RunsAdopted(Run(s, events), token, pid))
    ensures status == Reservation(token) ==>
      var events := [Crash, Recovered(false, false), Identified(Some(pid), true)] + ANNOUNCED;
      AllPossible(s, events) && RunsAdopted(Run(s, events), token, pid)
  {
    hide Run, AllPossible, RunsAdopted, AcceptAdopted;
    if status.desired.WantRunning? && status.pid == Some(pid) && status.token == Some(token) {
      AnswersAtOnce(s, status, token, pid);
      AdoptionIsWritten(s, [Crash, Recovered(true, true), Probed(true, true)], token, pid);
      AnswersInTime(s, status, token, pid);
      AdoptionIsWritten(s, [Crash, Recovered(true, true)] + [Probed(false, true), Identified(Some(pid), true)],
                        token, pid);
    }
    if status == Reservation(token) {
      ReservationAnswers(s, token, pid);
      AdoptionIsWritten(s, [Crash, Recovered(false, false), Identified(Some(pid), true)], token, pid);
    }
  }

  /** After a crash the supervisor finds the durable status. */
  lemma Crashes(s: State)
    ensures Step(s, Crash) == s.(c := NewController, memory := s.durable, due := 0) && Possible(s, Crash)
  {
  }

  lemma AnswersAtOnce(s: State, status: Status, token: nat, pid: Pid)
    requires Survives(s, status, token, pid)
    requires status.desired.WantRunning? && status.pid == Some(pid) && status.token == Some(token)
    ensures var events := [Crash, Recovered(true, true), Probed(true, true)];
      && AllPossible(s, events) && Run(s, events).c == AcceptAdopted(NewController, pid, token)
      && Run(s, events).live == s.live
  {
    hide Run, AllPossible;
    Crashes(s);
    Three(s, Crash, Recovered(true, true), Probed(true, true));
  }

  lemma AnswersInTime(s: State, status: Status, token: nat, pid: Pid)
    requires Survives(s, status, token, pid)
    requires status.desired.WantRunning? && status.pid == Some(pid) && status.token == Some(token)
    ensures var events := [Crash, Recovered(true, true)] + [Probed(false, true), Identified(Some(pid), true)];
      && AllPossible(s, events) && Run(s, events).c == AcceptAdopted(NewController, pid, token)
      && Run(s, events).live == s.live
  {
    hide Run, AllPossible, AcceptAdopted;
    Crashes(s);
    Two(s, Crash, Recovered(true, true));
    var s1 := Step(Step(s, Crash), Recovered(true, true));
    assert s1.c.at == AdoptProbe(status, pid, token) && s1.live == s.live;
    IdentityAnswers(s1, status, token, pid);
    Then(s, [Crash, Recovered(true, true)], s1, [Probed(false, true), Identified(Some(pid), true)],
         Run(s1, [Probed(false, true), Identified(Some(pid), true)]));
  }

  lemma IdentityAnswers(s: State, status: Status, token: nat, pid: Pid)
    requires s.c == NewController.(at := AdoptProbe(status, pid, token)) && s.live == {Process(token, pid)}
    requires status.desired.WantRunning? && status.pid == Some(pid) && status.token == Some(token)
    ensures var events := [Probed(false, true), Identified(Some(pid), true)];
      && AllPossible(s, events) && Run(s, events).c == AcceptAdopted(NewController, pid, token)
      && Run(s, events).live == s.live
  {
    hide Run, AllPossible;
    Acts(s, Probed(false, true));
    Two(s, Probed(false, true), Identified(Some(pid), true));
  }

  lemma ReservationAnswers(s: State, token: nat, pid: Pid)
    requires Survives(s, Reservation(token), token, pid)
    ensures var events := [Crash, Recovered(false, false), Identified(Some(pid), true)];
      && AllPossible(s, events) && Run(s, events).c == AcceptAdopted(NewController, pid, token)
      && Run(s, events).live == {Process(token, pid)}
  {
    hide Run, AllPossible;
    Crashes(s);
    Three(s, Crash, Recovered(false, false), Identified(Some(pid), true));
  }

  lemma AdoptionIsWritten(s: State, events: seq<Event>, token: nat, pid: Pid)
    requires AllPossible(s, events)
    requires var s' := Run(s, events);
      s'.c == AcceptAdopted(NewController, pid, token) && s'.live == {Process(token, pid)}
    ensures AllPossible(s, events + ANNOUNCED) && RunsAdopted(Run(s, events + ANNOUNCED), token, pid)
  {
    hide Run, AllPossible;
    var s' := Run(s, events);
    Two(s', WRITTEN, Resumed(true));
    Then(s, events, s', ANNOUNCED, Step(Step(s', WRITTEN), Resumed(true)));
  }

  /** A supervisor that crashed with a stopped intent ends what it left behind, and so does the monitor
      once it can verify it. */
  lemma OrphanIsStopped(s: State, status: Status, token: nat, pid: Pid)
    requires status.desired.WantStopped? && status.pid == Some(pid) && status.token == Some(token)
    ensures Survives(s, status, token, pid) ==>
      var events := [Crash, Recovered(true, true), Identified(Some(pid), true)] + (ANNOUNCED
                    + (KilledAdopted(token, pid) + ANNOUNCED));
      AllPossible(s, events) && IsStopped(Run(s, events))
    ensures HasAdopted(s, token, pid) && s.c.desired.WantStopped? && !s.c.timer ==>
      var events := [OrphanStopped] + (ANNOUNCED + (KilledAdopted(token, pid) + ANNOUNCED));
      AllPossible(s, events) && IsStopped(Run(s, events))
  {
    hide Run, AllPossible, IsStopped;
    if Survives(s, status, token, pid) {
      OrphanIsFound(s, status, token, pid);
      OrphanEnds(s, [Crash, Recovered(true, true), Identified(Some(pid), true)], token, pid);
    }
    if HasAdopted(s, token, pid) && s.c.desired.WantStopped? && !s.c.timer {
      hide Step;
      Acts(s, OrphanStopped);
      One(s, OrphanStopped);
      OrphanEnds(s, [OrphanStopped], token, pid);
    }
  }

  lemma OrphanIsFound(s: State, status: Status, token: nat, pid: Pid)
    requires status.desired.WantStopped? && status.pid == Some(pid) && status.token == Some(token)
    requires Survives(s, status, token, pid)
    ensures var events := [Crash, Recovered(true, true), Identified(Some(pid), true)];
      && AllPossible(s, events)
      && var s' := Run(s, events);
         StopAnnounced(s', StoppedEmit(pid)) && s'.c.child.None? && s'.c.adopted == Some(pid) && s'.live == s.live
  {
    hide Run, AllPossible, Step, Possible;
    Crashes(s);
    var s1 := Step(s, Crash);
    OrphanIsAwaited(s1, status, token, pid);
    OrphanAnswers(Step(s1, Recovered(true, true)), token, pid);
    Three(s, Crash, Recovered(true, true), Identified(Some(pid), true));
  }

  lemma OrphanIsAwaited(s: State, status: Status, token: nat, pid: Pid)
    requires status.desired.WantStopped? && status.pid == Some(pid) && status.token == Some(token)
    requires s.c == NewController && s.memory == Some(status)
    ensures Possible(s, Recovered(true, true))
    ensures Step(s, Recovered(true, true)) == s.(c := NewController.(at := StoppedWait(pid, token)))
  {
  }

  lemma OrphanAnswers(s: State, token: nat, pid: Pid)
    requires s.c == NewController.(at := StoppedWait(pid, token)) && s.live == {Process(token, pid)}
    ensures Possible(s, Identified(Some(pid), true))
    ensures var s' := Step(s, Identified(Some(pid), true));
      StopAnnounced(s', StoppedEmit(pid)) && s'.c.child.None? && s'.c.adopted == Some(pid) && s'.live == s.live
  {
  }

  lemma OrphanEnds(s: State, events: seq<Event>, token: nat, pid: Pid)
    requires AllPossible(s, events)
    requires var s' := Run(s, events);
      (StopAnnounced(s', StoppedEmit(pid)) || StopAnnounced(s', OrphanEmit(pid)))
      && s'.c.child.None? && s'.c.adopted == Some(pid) && s'.live == {Process(token, pid)}
    ensures var all := events + (ANNOUNCED + (KilledAdopted(token, pid) + ANNOUNCED));
      AllPossible(s, all) && IsStopped(Run(s, all))
  {
    hide Run, AllPossible, Step, Possible, IsStopped;
    var s1 := Run(s, events);
    WritesAndResumes(s1);
    var s2 := Run(s1, ANNOUNCED);
    assert s2.c.at == StoppedKill(pid) || s2.c.at == OrphanKill(pid);
    OrphanDies(s2, token, pid);
    var s3 := Run(s2, KilledAdopted(token, pid));
    WritesAndResumes(s3);
    OrphanRests(s3);
    var s4 := Run(s3, ANNOUNCED);
    Then(s2, KilledAdopted(token, pid), s3, ANNOUNCED, s4);
    Then(s1, ANNOUNCED, s2, KilledAdopted(token, pid) + ANNOUNCED, s4);
    Then(s, events, s1, ANNOUNCED + (KilledAdopted(token, pid) + ANNOUNCED), s4);
  }

  predicate OrphanGone(s: State) {
    && (s.c.at.LastWrite? || s.c.at.OrphanDone?) && s.live == {}
    && s.c == Controller(None, None, None, Stopped, WantStopped, false, s.c.at, Behind(1),
                         [Status(Stopped, WantStopped, None, None)])
  }

  lemma OrphanDies(s: State, token: nat, pid: Pid)
    requires s.c.at == StoppedKill(pid) || s.c.at == OrphanKill(pid)
    requires s.c.pending == [] && s.c.wait.NoWrite? && s.c.child.None? && s.c.desired.WantStopped? && !s.c.timer
    requires s.live == {Process(token, pid)}
    ensures AllPossible(s, KilledAdopted(token, pid)) && OrphanGone(Run(s, KilledAdopted(token, pid)))
  {
    hide Run, AllPossible, Step, Possible, OnTerminated;
    Dies(s, Process(token, pid));
    var s1 := s.(live := {});
    NobodyLives(s1, Terminated(true));
    Acts(s1, Terminated(true));
    OrphanTerminated(s.c, pid);
    Two(s, Died(Process(token, pid)), Terminated(true));
  }

  lemma OrphanTerminated(c: Controller, pid: Pid)
    requires c.at == StoppedKill(pid) || c.at == OrphanKill(pid)
    requires c.pending == [] && c.child.None? && c.desired.WantStopped? && !c.timer
    ensures var at := if c.at.StoppedKill? then LastWrite else OrphanDone;
      OnTerminated(c, true) == Controller(None, None, None, Stopped, WantStopped, false, at, Behind(1),
                                          [Status(Stopped, WantStopped, None, None)])
  {
  }

  lemma OrphanRests(s: State)
    requires OrphanGone(s)
    ensures IsStopped(Run(s, ANNOUNCED))
  {
    hide Run, AllPossible;
    WritesAndResumes(s);
  }

  // ----- What fails and is kept -----

  /** A stop of an adopted process that cannot be verified ends crashed, still wants to stop, and keeps it. */
  lemma UnverifiedIsKept(s: State, token: nat, pid: Pid, alive: bool)
    requires HasAdopted(s, token, pid)
    ensures var events := [StopAsked] + (ANNOUNCED + ([Probed(false, alive)] + ANNOUNCED));
      && AllPossible(s, events)
      && var s' := Run(s, events);
         && s'.c == Controller(None, Some(pid), Some(token), Crashed, WantStopped, false, Idle, NoWrite, [])
         && s'.live == s.live && s'.durable == Some(Status(Crashed, WantStopped, Some(pid), Some(token)))
  {
    hide Run, AllPossible, Step;
    StopBegins(s, false);
    var s1 := Run(s, [StopAsked]);
    WritesAndResumes(s1);
    var s2 := Run(s1, ANNOUNCED);
    assert s2.c.at == StopAdoptedProbe(pid, false);
    Acts(s2, Probed(false, alive));
    One(s2, Probed(false, alive));
    var s3 := Step(s2, Probed(false, alive));
    WritesAndResumes(s3);
    var s4 := Run(s3, ANNOUNCED);
    Then(s2, [Probed(false, alive)], s3, ANNOUNCED, s4);
    Then(s1, ANNOUNCED, s2, [Probed(false, alive)] + ANNOUNCED, s4);
    Then(s, [StopAsked], s1, ANNOUNCED + ([Probed(false, alive)] + ANNOUNCED), s4);
  }

  /** A child that cannot be terminated ends crashed, still wants to stop, and is kept. */
  lemma UnterminatedIsKept(s: State, token: nat, pid: Pid)
    requires HasChild(s, token, pid) && s.c.token == Some(token)
    ensures var events := [StopAsked] + (ANNOUNCED + ([Terminated(false)] + ANNOUNCED));
      && AllPossible(s, events)
      && var s' := Run(s, events);
         && s'.c == Controller(s.c.child, None, Some(token), Crashed, WantStopped, false, Idle, NoWrite, [])
         && s'.live == s.live && s'.durable == Some(Status(Crashed, WantStopped, Some(pid), Some(token)))
  {
    hide Run, AllPossible, Step;
    StopBegins(s, false);
    var s1 := Run(s, [StopAsked]);
    WritesAndResumes(s1);
    var s2 := Run(s1, ANNOUNCED);
    assert s2.c.at == StopTerminate(token, false);
    Acts(s2, Terminated(false));
    One(s2, Terminated(false));
    var s3 := Step(s2, Terminated(false));
    WritesAndResumes(s3);
    var s4 := Run(s3, ANNOUNCED);
    Then(s2, [Terminated(false)], s3, ANNOUNCED, s4);
    Then(s1, ANNOUNCED, s2, [Terminated(false)] + ANNOUNCED, s4);
    Then(s, [StopAsked], s1, ANNOUNCED + ([Terminated(false)] + ANNOUNCED), s4);
  }

  /** An occupied port ends a launch crashed and durably so; nothing is started beside the occupant. */
  lemma OccupiedEndsCrashed(s: State, token: nat)
    requires Launching(s)
    ensures var events := [Occupied(true, token)] + ANNOUNCED;
      && AllPossible(s, events)
      && var s' := Run(s, events);
         && AtRest(s'.c) && s'.c.state.Crashed? && s'.c.child.None? && s'.live == {}
         && s'.durable == Some(Status(Crashed, WantRunning, None, s.c.token))
  {
    hide Run, AllPossible;
    One(s, Occupied(true, token));
    var s1 := Step(s, Occupied(true, token));
    WritesAndResumes(s1);
    Then(s, [Occupied(true, token)], s1, ANNOUNCED, Run(s1, ANNOUNCED));
  }

  /** A supervisor that finds a stopped intent and nothing alive rests stopped. */
  lemma RecoveryRests(status: Status, alive: bool)
    requires status.desired.WantStopped? && (status.pid.None? || !alive)
    ensures var events := [Recovered(alive, alive)] + ANNOUNCED;
      AllPossible(Boot(Some(status)), events) && IsStopped(Run(Boot(Some(status)), events))
  {
    hide Run, AllPossible;
    One(Boot(Some(status)), Recovered(alive, alive));
    var s1 := Step(Boot(Some(status)), Recovered(alive, alive));
    WritesAndResumes(s1);
    Then(Boot(Some(status)), [Recovered(alive, alive)], s1, ANNOUNCED, Run(s1, ANNOUNCED));
  }

  // ----- Starting beside what is there -----

  /** A start verifies an adopted process: it runs on if its health answers, and is kept as it is if not. */
  lemma StartVerifiesAdopted(s: State, token: nat, pid: Pid, alive: bool)
    requires HasAdopted(s, token, pid)
    ensures var events := [StartAsked(true), Probed(true, alive)] + ANNOUNCED;
      AllPossible(s, events) && RunsAdopted(Run(s, events), token, pid)
    ensures var events := [StartAsked(true), Probed(false, alive)];
      && AllPossible(s, events)
      && Run(s, events) == s.(c := s.c.(desired := WantRunning, timer := false))
  {
    hide Run, AllPossible, Step;
    Acts(s, StartAsked(true));
    var s1 := Step(s, StartAsked(true));
    assert s1.c.at.StartProbe?;
    Acts(s1, Probed(true, alive));
    Acts(s1, Probed(false, alive));
    Two(s, StartAsked(true), Probed(true, alive));
    Two(s, StartAsked(true), Probed(false, alive));
    var s2 := Step(s1, Probed(true, alive));
    WritesAndResumes(s2);
    Then(s, [StartAsked(true), Probed(true, alive)], s2, ANNOUNCED, Run(s2, ANNOUNCED));
  }

  /** A start beside a running child changes nothing but the intent. */
  lemma StartKeepsRunning(s: State, token: nat, pid: Pid, alive: bool)
    requires HasChild(s, token, pid) && (s.c.state.Running? || s.c.state.Starting?)
    ensures AllPossible(s, [StartAsked(alive)])
    ensures Run(s, [StartAsked(alive)]) == s.(c := s.c.(desired := WantRunning, timer := false))
  {
    hide Run, AllPossible, Step;
    Acts(s, StartAsked(alive));
    One(s, StartAsked(alive));
  }

  /** A start replaces a child that no longer runs properly: it is terminated first. */
  lemma StartReplacesCrashed(s: State, token: nat, pid: Pid, token': nat, pid': Pid)
    requires HasChild(s, token, pid) && !s.c.state.Running? && !s.c.state.Starting?
    ensures var events := [StartAsked(true)] + ([Died(Process(token, pid)), Exited] + [WRITTEN, Terminated(true)])
                          + Launch(token', pid', true);
      AllPossible(s, events) && RunsOwned(Run(s, events), token', pid')
  {
    hide Run, AllPossible, Step, Possible, Launch, RunsOwned, Launching;
    var q := Process(token, pid);
    Acts(s, StartAsked(true));
    var s1 := Step(s, StartAsked(true));
    StartIsPossible(s);
    One(s, StartAsked(true));
    Dies(s1, q);
    var s2 := s1.(live := {});
    NobodyLives(s2, Exited);
    Acts(s2, Exited);
    Two(s1, Died(q), Exited);
    var s3 := Step(s2, Exited);
    TerminatesAndLaunches(s3);
    var s4 := Step(Step(s3, WRITTEN), Terminated(true));
    Then(s1, [Died(q), Exited], s3, [WRITTEN, Terminated(true)], s4);
    var events := [StartAsked(true)] + ([Died(q), Exited] + [WRITTEN, Terminated(true)]);
    Then(s, [StartAsked(true)], s1, [Died(q), Exited] + [WRITTEN, Terminated(true)], s4);
    AndRuns(s, events, token', pid', true);
  }

  lemma StartIsPossible(s: State)
    ensures Possible(s, StartAsked(true))
  {
  }

  lemma TerminatesAndLaunches(s: State)
    requires s.c.at.StartTerminate? && s.c.wait.NoWrite? && |s.c.pending| == 1 && s.live == {}
    requires s.c.child.None? && s.c.adopted.None? && s.c.desired.WantRunning?
    ensures Leads(s, [WRITTEN, Terminated(true)], Step(Step(s, WRITTEN), Terminated(true)))
    ensures Launching(Step(Step(s, WRITTEN), Terminated(true)))
  {
    hide Run, AllPossible, Step, Possible;
    Writes(s);
    var s1 := Step(s, WRITTEN);
    NobodyLives(s1, Terminated(true));
    Acts(s1, Terminated(true));
    Two(s, WRITTEN, Terminated(true));
  }

  /** A persisted process that is gone by the time its health was asked for, or by the deadline, is replaced;
      one that is alive but never answers is kept, crashed. */
  lemma RecoveryDecides(status: Status, token: nat, pid: Pid, token': nat, pid': Pid)
    requires status.desired.WantRunning? && status.pid == Some(pid) && status.token == Some(token)
    ensures var events := [Recovered(true, true), Probed(false, false)] + Launch(token', pid', true);
      AllPossible(Boot(Some(status)), events) && RunsOwned(Run(Boot(Some(status)), events), token', pid')
    ensures var events := [Recovered(true, true), Probed(false, true), Identified(None, false)]
                          + Launch(token', pid', true);
      AllPossible(Boot(Some(status)), events) && RunsOwned(Run(Boot(Some(status)), events), token', pid')
    ensures var events := [Recovered(true, true), Probed(false, true), Identified(None, true)] + ANNOUNCED;
      && AllPossible(Boot(Some(status)), events)
      && Run(Boot(Some(status)), events).c
         == Controller(None, Some(pid), Some(token), Crashed, WantRunning, false, Idle, NoWrite, [])
  {
    hide Run, AllPossible, Launch, RunsOwned;
    var s := Boot(Some(status));
    GoneAtOnce(status, token, pid);
    AndRuns(s, [Recovered(true, true), Probed(false, false)], token', pid', true);
    Unanswered(status, token, pid, false);
    AndRuns(s, [Recovered(true, true), Probed(false, true), Identified(None, false)], token', pid', true);
    Unanswered(status, token, pid, true);
    var events := [Recovered(true, true), Probed(false, true), Identified(None, true)];
    var s1 := Run(s, events);
    WritesAndResumes(s1);
    Then(s, events, s1, ANNOUNCED, Run(s1, ANNOUNCED));
  }

  lemma GoneAtOnce(status: Status, token: nat, pid: Pid)
    requires status.desired.WantRunning? && status.pid == Some(pid) && status.token == Some(token)
    ensures var events := [Recovered(true, true), Probed(false, false)];
      AllPossible(Boot(Some(status)), events) && Launching(Run(Boot(Some(status)), events))
  {
    hide Run, AllPossible;
    Two(Boot(Some(status)), Recovered(true, true), Probed(false, false));
  }

  lemma Unanswered(status: Status, token: nat, pid: Pid, alive: bool)
    requires status.desired.WantRunning? && status.pid == Some(pid) && status.token == Some(token)
    ensures var s, events := Boot(Some(status)), [Recovered(true, true), Probed(false, true), Identified(None, alive)];
      && AllPossible(s, events)
      && var s' := Run(s, events);
         if alive then
           && s'.c.child.None? && s'.c.adopted == Some(pid) && s'.c.token == Some(token) && s'.c.state.Crashed?
           && s'.c.desired.WantRunning? && !s'.c.timer && s'.c.at.LastWrite? && s'.c.wait == Behind(1)
           && |s'.c.pending| == 1
         else Launching(s')
  {
    hide Run, AllPossible, Step;
    var s := Boot(Some(status));
    var s1 := s.(c := NewController.(at := AdoptProbe(status, pid, token)));
    Recovers(status, token, pid);
    Acts(s1, Probed(false, true));
    var s2 := s.(c := NewController.(at := WaitIdentity(Some(pid), token)));
    assert Step(s1, Probed(false, true)) == s2;
    GivesNoAnswer(s2, token, pid, alive);
    Three(s, Recovered(true, true), Probed(false, true), Identified(None, alive));
  }

  lemma Recovers(status: Status, token: nat, pid: Pid)
    requires status.desired.WantRunning? && status.pid == Some(pid) && status.token == Some(token)
    ensures var s := Boot(Some(status));
      && Possible(s, Recovered(true, true))
      && Step(s, Recovered(true, true)) == s.(c := NewController.(at := AdoptProbe(status, pid, token)))
  {
  }

  lemma GivesNoAnswer(s: State, token: nat, pid: Pid, alive: bool)
    requires s.c == NewController.(at := WaitIdentity(Some(pid), token)) && s.live == {} && !s.blind
    ensures Possible(s, Identified(None, alive))
    ensures Step(s, Identified(None, alive)) == s.(c := OnIdentified(s.c, None, alive))
  {
  }

  // ----- Behind a write that failed -----

  /** After an own status write that failed, an operation neither launches, terminates nor probes anything,
      except that a launch under way aborts its own child; it ends, or reports a crash. */
  lemma FailedWriteEnds(s: State, alive: bool)
    requires AfterWrite(s.c.at) && s.c.wait == Written(false)
    ensures var c := Run(s, [Resumed(alive)]).c;
      && c.child == s.c.child && c.adopted == s.c.adopted && c.token == s.c.token && c.timer == s.c.timer
      && (c.at.Idle?
          || ((s.c.at.Publishing? || s.c.at.Announcing?) && c.at == Aborting(s.c.at.token) && Owns(s.c, s.c.at.token))
          || ((s.c.at.StopAdoptedDone? || s.c.at.OrphanDone?) && c.at.LastWrite? && c.state.Crashed?))
    ensures (s.c.at.Publishing? || s.c.at.Announcing?) && Owns(s.c, s.c.at.token) ==>
      Run(s, [Resumed(alive)]).c.at.Aborting?
    ensures s.c.at.StopAdoptedDone? || s.c.at.OrphanDone? ==> Run(s, [Resumed(alive)]).c.at.LastWrite?
  {
    hide Step, StartHead, StopHead, Schedule;
    Acts(s, Resumed(alive));
    assert [Resumed(alive)][..0] == [];
  }
}
