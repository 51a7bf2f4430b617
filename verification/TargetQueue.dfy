// Promise tails that run the operations of one target one after the other
// (src/local-control/target-queue.ts). An operation is known by its submission number.
module TargetQueue {
  import opened Wrappers

  /** A tail that was cleaned up has had its `finally` callback. */
  datatype Phase = Waiting | Running | Settled | Cleaned

  datatype Job = Job(target: string, prior: Option<nat>, phase: Phase)

  datatype State = State(tails: map<string, nat>, jobs: seq<Job>)

  datatype Event = Submitted(target: string) | Started(job: nat) | Ended(job: nat) | Finalised(job: nat)

  predicate Ended?(j: Job) {
    j.phase.Settled? || j.phase.Cleaned?
  }

  function TailOf(s: State, target: string): Option<nat> {
    if target in s.tails then Some(s.tails[target]) else None
  }

  function Submit(s: State, target: string): State {
    State(s.tails[target := |s.jobs|], s.jobs + [Job(target, TailOf(s, target), Waiting)])
  }

  /** An operation may start once the tail before it settled, whether it was resolved or rejected. */
  predicate MayStart(s: State, j: nat) {
    && j < |s.jobs| && s.jobs[j].phase.Waiting?
    && (s.jobs[j].prior.Some? ==> s.jobs[j].prior.value < |s.jobs| && Ended?(s.jobs[s.jobs[j].prior.value]))
  }

  function Enter(s: State, j: nat, phase: Phase): State
    requires j < |s.jobs|
  {
    s.(jobs := s.jobs[j := s.jobs[j].(phase := phase)])
  }

  function Cleanup(s: State, j: nat): State
    requires j < |s.jobs|
  {
    var t := s.jobs[j].target;
    Enter(if TailOf(s, t) == Some(j) then s.(tails := s.tails - {t}) else s, j, Cleaned)
  }

  function Step(s: State, e: Event): State {
    match e
    case Submitted(target) => Submit(s, target)
    case Started(j) => if MayStart(s, j) then Enter(s, j, Running) else s
    case Ended(j) => if j < |s.jobs| && s.jobs[j].phase.Running? then Enter(s, j, Settled) else s
    case Finalised(j) => if j < |s.jobs| && s.jobs[j].phase.Settled? then Cleanup(s, j) else s
  }

  function Run(s: State, events: seq<Event>): State {
    if events == [] then s else Step(Run(s, events[..|events| - 1]), events[|events| - 1])
  }

  const Empty := State(map[], [])

  class TargetOperationQueue {
    var tails: map<string, nat>
    var jobs: seq<Job>

    ghost function View(): State
      reads this
    {
      State(tails, jobs)
    }

    constructor ()
      ensures View() == Empty
    {
      tails, jobs := map[], [];
    }

    method Submit(target: string) returns (job: nat)
      modifies this
      ensures View() == Step(old(View()), Submitted(target))
      ensures job == |old(jobs)| && TailOf(View(), target) == Some(job)
    {
      job := |jobs|;
      var prior := None;
      if target in tails {
        prior := Some(tails[target]);
      }
      jobs := jobs + [Job(target, prior, Waiting)];
      tails := tails[target := job];
    }

    /** The `finally` of a settled tail: it deletes its own entry, never that of a newer tail. */
    method Finalise(job: nat)
      requires job < |jobs| && jobs[job].phase.Settled?
      modifies this
      ensures View() == Step(old(View()), Finalised(job))
      ensures forall t :: t in old(tails) && old(tails)[t] != job ==> t in tails && tails[t] == old(tails)[t]
    {
      var target := jobs[job].target;
      if target in tails && tails[target] == job {
        tails := tails - {target};
      }
      jobs := jobs[job := jobs[job].(phase := Cleaned)];
    }

    /** What `drain` waits for. */
    method Drained() returns (done: bool)
      ensures done <==> tails == map[]
    {
      done := |tails| == 0;
    }
  }

  // ----- Invariant -----

  predicate SameTarget(jobs: seq<Job>, i: nat, j: nat)
    requires i < |jobs| && j < |jobs|
  {
    jobs[i].target == jobs[j].target
  }

  /** A job that started has no unfinished job of its target before it. */
  ghost predicate InOrder(jobs: seq<Job>) {
    forall i: nat, j: nat :: i < j < |jobs| && SameTarget(jobs, i, j) && !jobs[j].phase.Waiting? ==> Ended?(jobs[i])
  }

  /** The prior of a job is the newest earlier job of its target that is not finished for good. */
  predicate ChainedAt(jobs: seq<Job>, i: nat, j: nat)
    requires i < j < |jobs|
  {
    match jobs[j].prior
    case None => Ended?(jobs[i])
    case Some(p) => i <= p < j && SameTarget(jobs, p, j)
  }

  ghost predicate Chained(jobs: seq<Job>) {
    forall i: nat, j: nat {:trigger ChainedAt(jobs, i, j)} {:trigger SameTarget(jobs, i, j)} ::
      i < j < |jobs| && SameTarget(jobs, i, j) ==> ChainedAt(jobs, i, j)
  }

  predicate PriorBefore(jobs: seq<Job>, j: nat)
    requires j < |jobs|
  {
    jobs[j].prior.Some? ==> jobs[j].prior.value < j && SameTarget(jobs, jobs[j].prior.value, j)
  }

  ghost predicate PriorsBefore(jobs: seq<Job>) {
    forall j: nat {:trigger PriorBefore(jobs, j)} :: j < |jobs| ==> PriorBefore(jobs, j)
  }

  /** A tail is the newest job of its target; without one every job of the target is finished. */
  ghost predicate TailsNewest(s: State) {
    && (forall t :: t in s.tails ==> s.tails[t] < |s.jobs| && s.jobs[s.tails[t]].target == t)
    && (forall i: nat :: i < |s.jobs| ==>
         if s.jobs[i].target in s.tails then i <= s.tails[s.jobs[i].target] else Ended?(s.jobs[i]))
  }

  ghost predicate Inv(s: State) {
    InOrder(s.jobs) && Chained(s.jobs) && PriorsBefore(s.jobs) && TailsNewest(s)
  }

  lemma SubmitKeeps(s: State, target: string)
    requires Inv(s)
    ensures Inv(Submit(s, target))
  {
    var s' := Submit(s, target);
    forall i: nat, j: nat | i < j < |s'.jobs| && SameTarget(s'.jobs, i, j)
      ensures ChainedAt(s'.jobs, i, j)
    {
      if j < |s.jobs| {
        assert SameTarget(s.jobs, i, j);
      }
    }
    forall i: nat, j: nat | i < j < |s'.jobs| && SameTarget(s'.jobs, i, j) && !s'.jobs[j].phase.Waiting?
      ensures Ended?(s'.jobs[i])
    {
      assert SameTarget(s.jobs, i, j);
    }
    forall j: nat | j < |s'.jobs| ensures PriorBefore(s'.jobs, j) {
      if j < |s.jobs| {
        assert PriorBefore(s.jobs, j);
      }
    }
  }

  /** Moving a job forward keeps the order, provided it starts only after its predecessors. */
  lemma EnterKeeps(s: State, j: nat, phase: Phase)
    requires Inv(s) && j < |s.jobs| && !phase.Waiting? && (Ended?(s.jobs[j]) ==> phase.Settled? || phase.Cleaned?)
    requires forall i: nat :: i < j && SameTarget(s.jobs, i, j) ==> Ended?(s.jobs[i])
    ensures Inv(Enter(s, j, phase))
  {
    var jobs, jobs' := s.jobs, Enter(s, j, phase).jobs;
    assert forall a: nat, b: nat :: a < |jobs| && b < |jobs| ==> SameTarget(jobs', a, b) == SameTarget(jobs, a, b);
    assert forall a: nat :: a < |jobs| ==> PriorBefore(jobs', a) == PriorBefore(jobs, a);
  }

  lemma PredecessorsEnded(s: State, j: nat)
    requires Inv(s) && (MayStart(s, j) || (j < |s.jobs| && !s.jobs[j].phase.Waiting?))
    ensures forall i: nat :: i < j && SameTarget(s.jobs, i, j) ==> Ended?(s.jobs[i])
  {
    forall i: nat | i < j && SameTarget(s.jobs, i, j) ensures Ended?(s.jobs[i]) {
      if s.jobs[j].phase.Waiting? && s.jobs[j].prior.Some? {
        var p := s.jobs[j].prior.value;
        assert PriorBefore(s.jobs, j);
        assert i <= p && SameTarget(s.jobs, p, j);
        assert i < p ==> SameTarget(s.jobs, i, p);
      }
    }
  }

  lemma CleanupKeeps(s: State, j: nat)
    requires Inv(s) && j < |s.jobs| && s.jobs[j].phase.Settled?
    ensures Inv(Cleanup(s, j))
  {
    PredecessorsEnded(s, j);
    var t := s.jobs[j].target;
    if TailOf(s, t) == Some(j) {
      var s1 := s.(tails := s.tails - {t});
      forall i: nat | i < |s1.jobs| && s1.jobs[i].target == t ensures Ended?(s1.jobs[i]) {
        assert i < j ==> SameTarget(s.jobs, i, j);
      }
      assert Inv(s1);
      EnterKeeps(s1, j, Cleaned);
    } else {
      EnterKeeps(s, j, Cleaned);
    }
  }

  lemma StepKeeps(s: State, e: Event)
    requires Inv(s)
    ensures Inv(Step(s, e))
  {
    hide Inv;
    match e
    case Submitted(target) => SubmitKeeps(s, target);
    case Started(j) =>
      if MayStart(s, j) {
        PredecessorsEnded(s, j);
        EnterKeeps(s, j, Running);
      }
    case Ended(j) =>
      if j < |s.jobs| && s.jobs[j].phase.Running? {
        PredecessorsEnded(s, j);
        EnterKeeps(s, j, Settled);
      }
    case Finalised(j) =>
      if j < |s.jobs| && s.jobs[j].phase.Settled? {
        CleanupKeeps(s, j);
      }
  }

  lemma {:induction false} RunKeeps(events: seq<Event>)
    ensures Inv(Run(Empty, events))
  {
    if events != [] {
      hide Inv, Step;
      RunKeeps(events[..|events| - 1]);
      StepKeeps(Run(Empty, events[..|events| - 1]), events[|events| - 1]);
    }
  }

  // ----- Theorems over every run -----

  /** Two operations of one target never run at the same time, and one that started has every earlier
      submission of its target behind it. */
  lemma OneAtATimeInOrder(events: seq<Event>, i: nat, j: nat)
    requires var jobs := Run(Empty, events).jobs; i < j < |jobs| && jobs[i].target == jobs[j].target
    ensures var jobs := Run(Empty, events).jobs;
      (!jobs[j].phase.Waiting? ==> Ended?(jobs[i])) && !(jobs[i].phase.Running? && jobs[j].phase.Running?)
  {
    hide Run;
    RunKeeps(events);
    assert SameTarget(Run(Empty, events).jobs, i, j);
  }

  /** When `drain` sees no tail, every operation submitted so far is finished. */
  lemma DrainIsSound(events: seq<Event>)
    requires Run(Empty, events).tails == map[]
    ensures forall j: nat :: j < |Run(Empty, events).jobs| ==> Ended?(Run(Empty, events).jobs[j])
  {
    hide Run;
    RunKeeps(events);
  }

  /** Nothing gets stuck: the oldest unfinished operation of a target is running or may start. */
  lemma {:induction false} OldestMayStart(events: seq<Event>, j: nat)
    requires var s := Run(Empty, events); j < |s.jobs| && !Ended?(s.jobs[j])
    requires var s := Run(Empty, events);
      forall i: nat :: i < j && s.jobs[i].target == s.jobs[j].target ==> Ended?(s.jobs[i])
    ensures var s := Run(Empty, events); s.jobs[j].phase.Running? || MayStart(s, j)
  {
    hide Run;
    RunKeeps(events);
    assert PriorBefore(Run(Empty, events).jobs, j);
  }

  /** Once all have ended and were finalised, no tail is left, so `drain` returns. */
  lemma AllFinalisedMeansDrained(events: seq<Event>)
    requires forall j: nat :: j < |Run(Empty, events).jobs| ==> Run(Empty, events).jobs[j].phase.Cleaned?
    ensures Run(Empty, events).tails == map[]
  {
    hide Run;
    RunTailsOpen(events);
  }

  ghost predicate TailsOpen(s: State) {
    Inv(s) && forall t :: t in s.tails ==> s.tails[t] < |s.jobs| && !s.jobs[s.tails[t]].phase.Cleaned?
  }

  lemma {:induction false} RunTailsOpen(events: seq<Event>)
    ensures TailsOpen(Run(Empty, events))
  {
    if events != [] {
      var s := Run(Empty, events[..|events| - 1]);
      RunTailsOpen(events[..|events| - 1]);
      StepTailsOpen(s, events[|events| - 1]);
    }
  }

  lemma StepTailsOpen(s: State, e: Event)
    requires TailsOpen(s)
    ensures TailsOpen(Step(s, e))
  {
    hide InOrder, Chained, PriorsBefore;
    StepKeeps(s, e);
  }
}
