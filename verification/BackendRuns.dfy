// What every run of the backend lifecycle keeps: at most one process, known and named by the durable
// status; a live pid that is never replaced; a stopped intent that stays stopped.
module BackendRuns {
  import opened Wrappers
  import opened Backend
  import opened BackendSafety

  // ----- At most one process -----

  /** Whatever the environment does, an owned and an adopted process never coexist, and the token of
      the one that is known is in the last durable status. */
  lemma {:induction false} KnownProcessIsDurable(durable: Option<Status>, events: seq<Event>)
    requires AllPossible(Boot(durable), events)
    ensures var s := Run(Boot(durable), events);
      && !(s.c.child.Some? && s.c.adopted.Some?)
      && (s.c.child.Some? ==> Carries(s.durable, s.c.child.value.token))
      && (s.c.adopted.Some? ==> s.c.token.Some? && Carries(s.durable, s.c.token.value))
  {
    hide Step, Possible, Run, AllPossible;
    RunKeeps(Boot(durable), events);
  }

  /** The `i`-th event ends the wait for a reservation without a pid, while its process lives. */
  predicate GivesUpAt(s: State, events: seq<Event>, i: nat)
    requires i < |events|
  {
    GivesUp(Run(s, events[..i]).c, events[i]) && Run(s, events[..i]).live != {}
  }

  lemma {:induction false} BlindOnlyByTimeout(s: State, events: seq<Event>)
    requires !s.blind && forall i: nat :: i < |events| ==> !GivesUpAt(s, events, i)
    ensures !Run(s, events).blind
  {
    if events != [] {
      hide Act, Recover, StartHead, OnReserved, OnIdentified, Settle;
      var front, n := events[..|events| - 1], |events| - 1;
      forall i: nat | i < n ensures !GivesUpAt(s, front, i) {
        assert front[..i] == events[..i];
        assert !GivesUpAt(s, events, i);
      }
      BlindOnlyByTimeout(s, front);
      assert !GivesUpAt(s, events, n);
    }
  }

  /** Unless a recovery gives up on a live reservation, at most one backend process is alive; it is
      known or under recovery, and the durable status leads back to it, so that a supervisor that crashes
      now finds it again. */
  lemma {:induction false} AtMostOneBackend(durable: Option<Status>, events: seq<Event>)
    requires AllPossible(Boot(durable), events)
    requires forall i: nat :: i < |events| ==> !GivesUpAt(Boot(durable), events, i)
    ensures var s := Run(Boot(durable), events);
      |s.live| <= 1 && forall q :: q in s.live ==> Held(s.c, q) && Names(s.durable, q)
  {
    hide Step, Possible, Run, AllPossible, GivesUpAt;
    RunKeeps(Boot(durable), events);
    BlindOnlyByTimeout(Boot(durable), events);
    AtMostOne(Run(Boot(durable), events).live);
  }

  lemma AtMostOne<T(!new)>(s: set<T>)
    requires forall p, q :: p in s && q in s ==> p == q
    ensures |s| <= 1
  {
    if s != {} {
      var p :| p in s;
      assert s == {p};
    }
  }

  /** A recovery that ends has taken the live process over; it never starts another one beside it. */
  lemma {:induction false} RecoveryTakesOver(durable: Option<Status>, events: seq<Event>, e: Event, q: Process)
    requires AllPossible(Boot(durable), events + [e])
    requires var s := Run(Boot(durable), events);
      Recovering(s.c.at) && !Recovering(Step(s, e).c.at) && q in Step(s, e).live && !Step(s, e).blind
    ensures var c := Step(Run(Boot(durable), events), e).c;
      c.adopted == Some(q.pid) && c.token == Some(q.token) && c.child.None?
  {
    hide Run, AllPossible, Step, Possible, Inv, Boot;
    var s := Run(Boot(durable), events);
    OneMoreEvent(Boot(durable), events, e);
    BootKeeps(durable);
    RunKeeps(Boot(durable), events);
    RunKeeps(Boot(durable), events + [e]);
    TakenOver(s, Step(s, e), q);
    StillChildless(s, e);
  }

  lemma OneMoreEvent(s: State, events: seq<Event>, e: Event)
    ensures Run(s, events + [e]) == Step(Run(s, events), e)
    ensures AllPossible(s, events + [e]) ==> AllPossible(s, events)
  {
    hide Step, Possible;
    assert (events + [e])[..|events|] == events;
  }

  lemma BootKeeps(durable: Option<Status>)
    ensures Inv(Boot(durable))
  {
  }

  lemma TakenOver(s: State, after: State, q: Process)
    requires Inv(after) && !Recovering(after.c.at) && q in after.live && !after.blind
    ensures after.c.child == Some(Child(q.token, Some(q.pid)))
         || (after.c.adopted == Some(q.pid) && after.c.token == Some(q.token))
    ensures after.c.adopted.Some? ==> after.c.child.None?
  {
  }

  lemma StillChildless(s: State, e: Event)
    requires Inv(s) && Recovering(s.c.at)
    ensures Step(s, e).c.child.None?
  {
  }

  // ----- A live pid is never replaced -----

  /** The event reports no dead pid, and is no request to stop. */
  predicate SeesAlive(e: Event) {
    match e
    case Recovered(alive, aliveAgain) => alive && aliveAgain
    case StartAsked(alive) => alive
    case Due(alive) => alive
    case Identified(_, alive) => alive
    case Probed(_, alive) => alive
    case Resumed(alive) => alive
    case AdoptedDied => false
    case StopAsked => false
    case RestartAsked => false
    case _ => true
  }

  predicate KeepsRunning(status: Option<Status>, pid: Pid, token: nat) {
    status.Some? && status.value.pid == Some(pid) && status.value.token == Some(token)
      && status.value.desired.WantRunning?
  }

  /** Recovery works on this pid and token; afterwards they are the adopted ones. */
  ghost predicate Sticks(s: State, pid: Pid, token: nat) {
    && KeepsRunning(s.memory, pid, token) && KeepsRunning(s.durable, pid, token)
    && (forall r :: r in s.c.pending ==> KeepsRunning(Some(r), pid, token))
    && s.c.child.None?
    && match s.c.at
       case Fresh => s.c == NewController
       case AdoptProbe(prev, p, t) => KeepsRunning(Some(prev), pid, token) && p == pid && t == token
         && s.c.adopted.None?
       case WaitIdentity(expected, t) => expected == Some(pid) && t == token && s.c.adopted.None?
       case _ =>
         && (s.c.at.Idle? || s.c.at.LastWrite? || s.c.at.StartProbe?)
         && s.c.adopted == Some(pid) && s.c.token == Some(token) && s.c.desired.WantRunning?
  }

  lemma SticksOutside(s: State, e: Event, pid: Pid, token: nat)
    requires Sticks(s, pid, token)
    requires e.Exited? || e.SpawnErrored? || e.AdoptedChecked? || e.OrphanStopped? || e.OwnedKilled? || e.Rescheduled?
          || e.Terminated? || e.Readied? || e.Occupied?
    ensures Sticks(s.(c := Act(s.c, e)), pid, token)
  {
  }

  lemma SticksWorld(s: State, e: Event, pid: Pid, token: nat)
    requires Sticks(s, pid, token)
    requires e.Died? || e.StatusWritten? || e.Flushed? || e.TimerFired? || e.Crash? || e.Reserved?
    ensures Sticks(Step(s, e), pid, token) && Step(s, e).live <= s.live
  {
  }

  lemma SticksStep(s: State, e: Event, pid: Pid, token: nat)
    requires Sticks(s, pid, token) && SeesAlive(e)
    ensures Sticks(Step(s, e), pid, token) && Step(s, e).live <= s.live
  {
    if e.Died? || e.StatusWritten? || e.Flushed? || e.TimerFired? || e.Crash? || e.Reserved? {
      SticksWorld(s, e, pid, token);
    } else if e.Recovered? || e.StartAsked? || e.Due? || e.Identified? || e.Probed? || e.Resumed? {
    } else {
      hide Act, Sticks;
      SticksOutside(s, e, pid, token);
    }
  }

  lemma {:induction false} SticksRun(s: State, events: seq<Event>, pid: Pid, token: nat)
    requires Sticks(s, pid, token) && forall e :: e in events ==> SeesAlive(e)
    ensures Sticks(Run(s, events), pid, token) && Run(s, events).live <= s.live
  {
    if events != [] {
      hide Sticks, Step;
      SticksRun(s, events[..|events| - 1], pid, token);
      SticksStep(Run(s, events[..|events| - 1]), events[|events| - 1], pid, token);
    }
  }

  /** With a running intent, a persisted pid and a persisted token, nothing is launched as long as no
      check reports a dead pid, whether or not the pid belongs to a backend: through probes that fail,
      waits that end, failing writes, restart timers, requests to start, and supervisor crashes. Once
      recovery ends, that pid is the adopted one. */
  lemma {:induction false} LivePidIsNeverReplaced(previous: Status, events: seq<Event>)
    requires previous.desired.WantRunning? && previous.pid.Some? && previous.token.Some?
    requires forall e :: e in events ==> SeesAlive(e)
    ensures var s := Run(Boot(Some(previous)), events);
      && s.live == {} && !s.c.at.Occupant? && !s.c.at.Reserving?
      && (Recovering(s.c.at) || (s.c.adopted == previous.pid && s.c.token == previous.token))
  {
    hide Run;
    SticksRun(Boot(Some(previous)), events, previous.pid.value, previous.token.value);
  }

  // ----- A stopped intent -----

  predicate WantsStopped(status: Option<Status>) {
    status.Some? && status.value.desired.WantStopped?
  }

  predicate StopPoint(at: Point) {
    || at.Fresh? || at.Idle? || at.LastWrite? || at.StoppedWait? || at.StoppedEmit? || at.StoppedKill?
    || ((at.StopEmit? || at.StopTerminate? || at.StopDone? || at.StopAdoptedEmit? || at.StopAdoptedProbe?
         || at.StopAdoptedKill? || at.StopAdoptedDone?) && !at.thenStart)
    || at.OrphanEmit? || at.OrphanKill? || at.OrphanDone?
  }

  ghost predicate Quiet(s: State) {
    && s.c.desired.WantStopped? && !s.c.timer && s.due == 0 && StopPoint(s.c.at)
    && WantsStopped(s.memory) && WantsStopped(s.durable)
    && forall r :: r in s.c.pending ==> WantsStopped(Some(r))
  }

  lemma QuietActs(s: State, e: Event)
    requires Quiet(s) && (e.Occupied? || e.Readied? || e.Probed? || e.Terminated? || e.Resumed?)
    ensures Quiet(s.(c := Act(s.c, e)))
  {
    hide StartHead, Emit;
  }

  lemma QuietOutside(s: State, e: Event)
    requires Quiet(s) && (e.StopAsked? || e.Exited? || e.SpawnErrored? || e.AdoptedDied? || e.AdoptedChecked?
                          || e.OrphanStopped? || e.OwnedKilled? || e.Rescheduled?)
    ensures Quiet(s.(c := Act(s.c, e)))
  {
    hide StartHead;
  }

  lemma QuietRecovery(s: State, e: Event)
    requires Quiet(s) && (e.Recovered? || e.Identified? || e.Reserved? || e.Due?)
    ensures Quiet(Step(s, e)) && Step(s, e).live <= s.live
  {
    hide StartHead, PersistedRunning, AcceptAdopted;
  }

  lemma QuietStep(s: State, e: Event)
    requires Quiet(s) && !Asks(e)
    ensures Quiet(Step(s, e)) && Step(s, e).live <= s.live
  {
    match e
    case StatusWritten(_) =>
    case Flushed =>
    case Died(_) =>
    case TimerFired =>
    case Crash =>
    case _ =>
      if e.Recovered? || e.Identified? || e.Reserved? || e.Due? {
        QuietRecovery(s, e);
      } else if e.Occupied? || e.Readied? || e.Probed? || e.Terminated? || e.Resumed? {
        hide Act, Quiet;
        QuietActs(s, e);
      } else {
        hide Act, Quiet;
        QuietOutside(s, e);
      }
  }

  /** While the durable intent is `stopped` and nobody asks for a start, nothing is launched:
      whatever dies, times out or fails to be written, and however often the supervisor restarts. */
  lemma {:induction false} StoppedStaysStopped(s: State, events: seq<Event>)
    requires Quiet(s) && forall e :: e in events ==> !Asks(e)
    ensures Quiet(Run(s, events)) && Run(s, events).live <= s.live
  {
    if events != [] {
      hide Quiet, Step;
      StoppedStaysStopped(s, events[..|events| - 1]);
      QuietStep(Run(s, events[..|events| - 1]), events[|events| - 1]);
    }
  }

  /** A supervisor that finds a stopped intent launches nothing until it is asked to. */
  lemma {:induction false} StoppedIntentLaunchesNothing(previous: Status, events: seq<Event>)
    requires previous.desired.WantStopped? && forall e :: e in events ==> !Asks(e)
    ensures var s := Run(Boot(Some(previous)), events); s.live == {} && WantsStopped(s.durable)
  {
    hide Run;
    StoppedStaysStopped(Boot(Some(previous)), events);
  }

  // ----- Giving up can double -----

  function LaunchOf(token: nat, pid: Pid): seq<Event> {
    [Occupied(false, token), StatusWritten(true), Reserved(Launched(Some(pid)))]
  }

  lemma FreshPid(live: set<Process>) returns (pid: Pid)
    ensures NoneWith(live, pid)
    decreases live
  {
    pid := 1;
    if live != {} {
      var q :| q in live;
      var above := PidAbove(live - {q});
      pid := if above > q.pid then above else q.pid + 1;
    }
  }

  lemma PidAbove(live: set<Process>) returns (pid: Pid)
    ensures forall q :: q in live ==> q.pid < pid
    decreases live
  {
    pid := 1;
    if live != {} {
      var q :| q in live;
      pid := PidAbove(live - {q});
      if pid <= q.pid {
        pid := q.pid + 1;
      }
    }
  }

  lemma GivenUpIsAtOccupant(s: State, e: Event)
    requires Inv(s) && GivesUp(s.c, e)
    ensures AtOccupant(Step(s, e)) && Step(s, e).live == s.live
  {
  }

  lemma OneMore(live: set<Process>, q: Process)
    requires q !in live && live != {}
    ensures |live + {q}| >= 2
  {
    assert |live| >= 1;
  }

  /** After these events, some more are possible that leave two live backends. */
  ghost predicate CanDouble(s: State, events: seq<Event>) {
    exists more :: AllPossible(s, events + more) && |Run(s, events + more).live| >= 2
  }

  /** Any run that gives up on a live reservation can go on to two live backends. */
  lemma {:induction false} GivingUpCanDouble(durable: Option<Status>, events: seq<Event>, i: nat)
    requires AllPossible(Boot(durable), events) && i < |events| && GivesUpAt(Boot(durable), events, i)
    ensures CanDouble(Boot(durable), events[..i + 1])
  {
    hide Run, AllPossible, Step, Possible, LaunchOf, AtOccupant, NoneWith, GivesUp;
    var start := Boot(durable);
    PrefixPossible(start, events, i);
    PrefixPossible(start, events, i + 1);
    RunKeeps(start, events[..i]);
    RunPrefix(start, events, i);
    var s, s' := Run(start, events[..i]), Run(start, events[..i + 1]);
    GivenUpIsAtOccupant(s, events[i]);
    var pid := FreshPid(s'.live);
    LaunchAt(s', 0, pid);
    RunConcat(start, events[..i + 1], LaunchOf(0, pid));
    NotLive(s'.live, Process(0, pid));
    OneMore(s'.live, Process(0, pid));
    assert AllPossible(start, events[..i + 1] + LaunchOf(0, pid));
  }

  lemma NotLive(live: set<Process>, q: Process)
    requires NoneWith(live, q.pid)
    ensures q !in live
  {
  }

  lemma {:induction false} PrefixPossible(s: State, events: seq<Event>, n: nat)
    requires AllPossible(s, events) && n <= |events|
    ensures AllPossible(s, events[..n])
    decreases |events|
  {
    hide Possible, Run;
    if n < |events| {
      PrefixPossible(s, events[..|events| - 1], n);
      assert events[..|events| - 1][..n] == events[..n];
    } else {
      assert events[..n] == events;
    }
  }

  /** A supervisor crash right after the spawn leaves a durable reservation without a pid. If the
      process does not answer before the deadline, recovery starts a second one. */
  lemma TimedOutReservationDoubles()
    ensures var events := [Recovered(false, false)] + LaunchOf(1, 7)
        + [Crash, Recovered(false, false), Identified(None, false)]
                          + LaunchOf(2, 8);
      AllPossible(Boot(None), events) && Run(Boot(None), events).live == {Process(1, 7), Process(2, 8)}
  {
    hide Run, AllPossible, Step, Possible, LaunchOf;
    var start, again := [Recovered(false, false)], [Crash, Recovered(false, false), Identified(None, false)];
    FirstStart(start);
    var s1 := Run(Boot(None), start);
    LaunchAt(s1, 1, 7);
    RunConcat(Boot(None), start, LaunchOf(1, 7));
    var s2 := Run(s1, LaunchOf(1, 7));
    StartAgain(s2, again);
    RunConcat(Boot(None), start + LaunchOf(1, 7), again);
    LaunchAt(Run(s2, again), 2, 8);
    RunConcat(Boot(None), start + LaunchOf(1, 7) + again, LaunchOf(2, 8));
  }

  lemma FirstStart(e: seq<Event>)
    requires e == [Recovered(false, false)]
    ensures AllPossible(Boot(None), e) && AtOccupant(Run(Boot(None), e)) && Run(Boot(None), e).live == {}
  {
    RunPrefix(Boot(None), e, 0);
    assert e[..0] == [] && e[..1] == e;
  }

  predicate AtOccupant(s: State) {
    && s.c.at.Occupant? && s.c.desired.WantRunning? && s.c.child.None? && s.c.adopted.None? && s.c.pending == []
  }

  lemma LaunchAt(s: State, token: nat, pid: Pid)
    requires AtOccupant(s) && NoneWith(s.live, pid)
    ensures AllPossible(s, LaunchOf(token, pid))
    ensures var s' := Run(s, LaunchOf(token, pid));
      s'.live == s.live + {Process(token, pid)} && s'.durable == Some(Reservation(token))
  {
    hide Run, AllPossible, Step, Possible;
    Unfold3(s, LaunchOf(token, pid));
    LaunchSteps(s, token, pid);
  }

  lemma LaunchSteps(s: State, token: nat, pid: Pid)
    requires AtOccupant(s) && NoneWith(s.live, pid)
    ensures var s1 := Step(s, Occupied(false, token));
      var s2 := Step(s1, StatusWritten(true));
      var s3 := Step(s2, Reserved(Launched(Some(pid))));
      && Possible(s, Occupied(false, token)) && Possible(s1, StatusWritten(true))
      && Possible(s2, Reserved(Launched(Some(pid))))
      && s3.live == s.live + {Process(token, pid)} && s3.durable == Some(Reservation(token))
  {
  }

  lemma StartAgain(s: State, e: seq<Event>)
    requires e == [Crash, Recovered(false, false), Identified(None, false)]
    requires s.durable == Some(Reservation(1)) && s.live == {Process(1, 7)}
    ensures AllPossible(s, e) && AtOccupant(Run(s, e)) && Run(s, e).live == s.live
  {
    hide Run, AllPossible;
    Unfold3(s, e);
  }

  lemma Unfold3(s: State, e: seq<Event>)
    requires |e| == 3
    ensures Run(s, e) == Step(Step(Step(s, e[0]), e[1]), e[2])
    ensures AllPossible(s, e) <==>
      Possible(s, e[0]) && Possible(Step(s, e[0]), e[1]) && Possible(Step(Step(s, e[0]), e[1]), e[2])
  {
    hide *;
    RunPrefix(s, e, 0);
    RunPrefix(s, e, 1);
    RunPrefix(s, e, 2);
    RunNone(s);
    assert e[..0] == [] && e[..3] == e;
  }

  lemma RunNone(s: State)
    ensures Run(s, []) == s && AllPossible(s, [])
  {
  }

  lemma RunPrefix(s: State, e: seq<Event>, n: nat)
    requires n < |e|
    ensures Run(s, e[..n + 1]) == Step(Run(s, e[..n]), e[n])
    ensures AllPossible(s, e[..n + 1]) <==> AllPossible(s, e[..n]) && Possible(Run(s, e[..n]), e[n])
  {
    hide Step, Possible;
    assert e[..n + 1][..n] == e[..n];
  }

  lemma {:induction false} RunConcat(s: State, a: seq<Event>, b: seq<Event>)
    ensures Run(s, a + b) == Run(Run(s, a), b)
    ensures AllPossible(s, a + b) <==> AllPossible(s, a) && AllPossible(Run(s, a), b)
  {
    hide Step, Possible;
    if b == [] {
      assert a + b == a;
    } else {
      RunConcat(s, a, b[..|b| - 1]);
      assert (a + b)[..|a + b| - 1] == a + b[..|b| - 1];
    }
  }
}
