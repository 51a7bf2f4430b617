// What happens to a request when nothing fails: it runs once, its outcome is recorded and durable, and
// the same request is answered with it from then on.
module SupervisorProgress {
  import opened Wrappers
  import opened StateStore
  import opened Supervisor
  import opened SupervisorSafety
  import opened SupervisorReplies

  /** The id stands for nothing yet. */
  predicate Unused(s: State, id: string) {
    id !in Ids(s.operations) && id !in s.inflight && id !in s.claims
  }

  /** The record of the request holds this response, in memory and on disk. */
  predicate Recorded(s: State, r: Request, response: Response) {
    Find(s.operations, r.id) == Some(NewRecord(r).(response := response)) && s.durable == s.operations
  }

  /** What an operation did so far: how often it ran, and nothing is under way. */
  predicate Rests(s: State, id: string, ran: nat) {
    Count(s.effects, id) == ran && id !in s.inflight && id !in s.claims && !s.closing
  }

  lemma {:induction false} RunCons(s: State, e: Event, rest: seq<Event>, max: nat)
    ensures Run(s, [e] + rest, max) == Run(Step(s, e, max), rest, max)
    decreases |rest|
  {
    hide Step;
    if rest == [] {
      assert ([e] + rest)[..0] == [] && Run(s, [], max) == s;
    } else {
      RunCons(s, e, rest[..|rest| - 1], max);
      assert ([e] + rest)[..|rest|] == [e] + rest[..|rest| - 1];
    }
  }

  lemma RunNothing(s: State, max: nat)
    ensures Run(s, [], max) == s
  {
  }

  // ----- Acceptance -----

  lemma BeginsAndIsAccepted(s: State, r: Request, max: nat)
    requires Sound(s) && max > 0 && Admissible(s, r) && Unused(s, r.id)
    ensures var s' := Step(Step(s, Dispatched(r), max), AcceptWritten(r.id, true), max);
      && Recorded(s', r, Accepted) && s'.inflight == s.inflight[r.id := Inflight(r, Admitted)]
      && s' == s.(operations := s'.operations, durable := s'.durable, inflight := s'.inflight,
                  accepted := Bump(s.accepted, r.id), evicted := s'.evicted)
      && Sound(s')
  {
    hide Find, Ids, UniqueIds, Accept, Answer, RecordStep, CallbackStep, RestartStep;
    AdmissibleIsAnswered(s, r);
    var s1 := s.(inflight := s.inflight[r.id := Inflight(r, Accepting)]);
    DispatchKeeps(s, r, r.id);
    assert Step(s, Dispatched(r), max) == s1;
    AcceptWrittenKeeps(s1, r.id, true, r.id, max);
    AcceptKeeps(s1.operations, NewRecord(r), max, r.id);
  }

  // ----- A direct execution -----

  function Execution(r: Request, response: Response): seq<Event> {
    [Dispatched(r)] + ([AcceptWritten(r.id, true)] + ([Resumed(r.id)] + ([EffectStarted(r.id)] + ([EffectEnded(r.id)]
      + ([CompleteWritten(r.id, response, true)] + ([Forgotten(r.id)] + []))))))
  }

  lemma AdmittedRuns(s: State, r: Request, max: nat)
    requires InPhase(s, r.id, Admitted) && s.inflight[r.id].request == r && r.mode.ExecuteMode?
    ensures var s' := Step(Step(Step(s, Resumed(r.id), max), EffectStarted(r.id), max), EffectEnded(r.id), max);
      s' == s.(inflight := s.inflight[r.id := Inflight(r, Recording)], effects := Bump(s.effects, r.id))
  {
    hide AcceptStep, RecordStep, DispatchStep, CallbackStep, RestartStep, Bump;
    var s1 := s.(inflight := s.inflight[r.id := Inflight(r, Queued)]);
    assert Step(s, Resumed(r.id), max) == s1;
    var s2 := s1.(inflight := s.inflight[r.id := Inflight(r, Running)], effects := Bump(s.effects, r.id));
    assert Step(s1, EffectStarted(r.id), max) == s2;
  }

  lemma RecordingSettles(s: State, r: Request, response: Response, max: nat)
    requires InPhase(s, r.id, Recording) && Recorded(s, r, Accepted) && !response.Accepted?
    ensures var s' := Step(Step(s, CompleteWritten(r.id, response, true), max), Forgotten(r.id), max);
      && Recorded(s', r, response)
      && s' == s.(operations := s'.operations, durable := s'.operations, inflight := s.inflight - {r.id})
  {
    hide Complete, Ids, Find, AcceptStep, DispatchStep, CallbackStep, RestartStep;
    CompleteKeeps(s.operations, r.id, response);
    var s1 := Step(s, CompleteWritten(r.id, response, true), max);
    assert s1.inflight - {r.id} == s.inflight - {r.id};
  }

  lemma RecordedIsReplayed(s: State, r: Request, response: Response)
    requires Admissible(s, r) && Recorded(s, r, response)
    ensures Answer(s, r) == Replayed(response)
  {
    hide Find, Answer;
    AdmissibleIsAnswered(s, r);
  }

  /** A direct execution of an unused id runs exactly once, its response is recorded in memory and on disk,
      and the same request is answered with it. */
  lemma ExecutedOnce(s: State, r: Request, response: Response, max: nat)
    requires Sound(s) && max > 0 && Admissible(s, r) && r.mode.ExecuteMode? && Unused(s, r.id) && !response.Accepted?
    ensures var s' := Run(s, Execution(r, response), max);
      && Rests(s', r.id, Count(s.effects, r.id) + 1) && Recorded(s', r, response)
      && Answer(s', r) == Replayed(response)
  {
    hide Step, Run, Answer, Recorded, Sound, Ids;
    BeginsAndIsAccepted(s, r, max);
    var s1 := Step(s, Dispatched(r), max);
    var s2 := Step(s1, AcceptWritten(r.id, true), max);
    AdmittedRuns(s2, r, max);
    var s3 := Step(s2, Resumed(r.id), max);
    var s4 := Step(s3, EffectStarted(r.id), max);
    var s5 := Step(s4, EffectEnded(r.id), max);
    SameRecord(s2, s5, r, Accepted);
    RecordingSettles(s5, r, response, max);
    var s6 := Step(s5, CompleteWritten(r.id, response, true), max);
    var s7 := Step(s6, Forgotten(r.id), max);
    RecordedIsReplayed(s7, r, response);
    RunNothing(s7, max);
    RunCons(s6, Forgotten(r.id), [], max);
    RunCons(s5, CompleteWritten(r.id, response, true), [Forgotten(r.id)] + [], max);
    var tail := [CompleteWritten(r.id, response, true)] + ([Forgotten(r.id)] + []);
    RunCons(s4, EffectEnded(r.id), tail, max);
    RunCons(s3, EffectStarted(r.id), [EffectEnded(r.id)] + tail, max);
    tail := [EffectStarted(r.id)] + ([EffectEnded(r.id)] + tail);
    RunCons(s2, Resumed(r.id), tail, max);
    RunCons(s1, AcceptWritten(r.id, true), [Resumed(r.id)] + tail, max);
    RunCons(s, Dispatched(r), [AcceptWritten(r.id, true)] + ([Resumed(r.id)] + tail), max);
  }

  lemma SameRecord(s: State, s': State, r: Request, response: Response)
    requires Recorded(s, r, response) && s'.operations == s.operations && s'.durable == s.durable
    ensures Recorded(s', r, response)
  {
  }

  // ----- Preparation and commit -----

  function Preparation(r: Request): seq<Event> {
    [Dispatched(r)] + ([AcceptWritten(r.id, true)] + ([Resumed(r.id)] + ([Forgotten(r.id)] + [])))
  }

  lemma AdmittedSettles(s: State, r: Request, max: nat)
    requires InPhase(s, r.id, Admitted) && s.inflight[r.id].request == r && r.mode.PrepareMode?
    ensures Step(Step(s, Resumed(r.id), max), Forgotten(r.id), max) == s.(inflight := s.inflight - {r.id})
  {
    hide AcceptStep, RecordStep, DispatchStep, CallbackStep, RestartStep;
    var s1 := s.(inflight := s.inflight[r.id := Inflight(r, Settled)]);
    assert Step(s, Resumed(r.id), max) == s1;
    assert s1.inflight - {r.id} == s.inflight - {r.id};
  }

  /** A preparation of an unused id is recorded and runs nothing; the same request is answered as accepted. */
  lemma PreparedOnly(s: State, r: Request, max: nat)
    requires Sound(s) && max > 0 && Admissible(s, r) && r.mode.PrepareMode? && Unused(s, r.id)
    ensures var s' := Run(s, Preparation(r), max);
      && Rests(s', r.id, Count(s.effects, r.id)) && Recorded(s', r, Accepted)
      && Answer(s', r) == Replayed(Accepted)
  {
    hide Step, Run, Answer, Recorded, Sound, Ids;
    BeginsAndIsAccepted(s, r, max);
    var s1 := Step(s, Dispatched(r), max);
    var s2 := Step(s1, AcceptWritten(r.id, true), max);
    AdmittedSettles(s2, r, max);
    var s3 := Step(s2, Resumed(r.id), max);
    var s4 := Step(s3, Forgotten(r.id), max);
    SameRecord(s2, s4, r, Accepted);
    RecordedIsReplayed(s4, r, Accepted);
    RunNothing(s4, max);
    RunCons(s3, Forgotten(r.id), [], max);
    RunCons(s2, Resumed(r.id), [Forgotten(r.id)] + [], max);
    RunCons(s1, AcceptWritten(r.id, true), [Resumed(r.id)] + ([Forgotten(r.id)] + []), max);
    RunCons(s, Dispatched(r), [AcceptWritten(r.id, true)] + ([Resumed(r.id)] + ([Forgotten(r.id)] + [])), max);
  }

  function Commitment(c: Request, response: Response): seq<Event> {
    [Dispatched(c)] + ([CallbackFired(c)] + ([ClaimStarted(c.id)] + ([ClaimEnded(c.id)]
      + ([ClaimWritten(c.id, response, true)] + ([ClaimReleased(c.id)] + [])))))
  }

  lemma CommitClaims(s: State, r: Request, c: Request, max: nat)
    requires Recorded(s, r, Accepted) && r.mode.PrepareMode? && c == r.(mode := CommitMode) && Preparable(r)
    requires !s.closing && r.id !in s.claims
    ensures Step(Step(s, Dispatched(c), max), CallbackFired(c), max) == s.(claims := s.claims[r.id := Waiting])
  {
    hide Find, Ids, AcceptStep, RecordStep, RestartStep, Answer;
    CommitIsAnswered(s, c);
    var s1 := s.(callbacks := s.callbacks + multiset{c});
    assert Step(s, Dispatched(c), max) == s1;
    assert s1.callbacks - multiset{c} == s.callbacks;
  }

  lemma ClaimRunsOn(s: State, id: string, max: nat)
    requires InClaim(s, id, Waiting) && !s.closing
    ensures Step(Step(s, ClaimStarted(id), max), ClaimEnded(id), max)
         == s.(claims := s.claims[id := Completing], effects := Bump(s.effects, id))
  {
    hide AcceptStep, RecordStep, DispatchStep, CallbackStep, RestartStep, Bump;
    var s1 := s.(claims := s.claims[id := Executing], effects := Bump(s.effects, id));
    assert Step(s, ClaimStarted(id), max) == s1;
  }

  lemma ClaimSettles(s: State, r: Request, response: Response, max: nat)
    requires InClaim(s, r.id, Completing) && Recorded(s, r, Accepted) && !response.Accepted?
    ensures var s' := Step(Step(s, ClaimWritten(r.id, response, true), max), ClaimReleased(r.id), max);
      && Recorded(s', r, response)
      && s' == s.(operations := s'.operations, durable := s'.operations, claims := s.claims - {r.id})
  {
    hide Complete, Ids, Find, AcceptStep, DispatchStep, CallbackStep, RestartStep;
    CompleteKeeps(s.operations, r.id, response);
    var s1 := Step(s, ClaimWritten(r.id, response, true), max);
    assert s1.claims - {r.id} == s.claims - {r.id};
  }

  /** A commit of a prepared operation runs it exactly once and records its response in memory and on disk;
      a repeated preparation or commit is answered with it. */
  lemma CommittedOnce(s: State, r: Request, response: Response, max: nat)
    requires Recorded(s, r, Accepted) && r.mode.PrepareMode? && Preparable(r) && !response.Accepted?
    requires Rests(s, r.id, Count(s.effects, r.id))
    ensures var c := r.(mode := CommitMode);
      var s' := Run(s, Commitment(c, response), max);
      && Rests(s', r.id, Count(s.effects, r.id) + 1) && Recorded(s', r, response)
      && Answer(s', r) == Replayed(response) && Answer(s', c) == Replayed(response)
  {
    hide Step, Run, Answer, Recorded, Ids;
    var c := r.(mode := CommitMode);
    CommitClaims(s, r, c, max);
    var s1 := Step(s, Dispatched(c), max);
    var s2 := Step(s1, CallbackFired(c), max);
    ClaimRunsOn(s2, c.id, max);
    var s3 := Step(s2, ClaimStarted(c.id), max);
    var s4 := Step(s3, ClaimEnded(c.id), max);
    SameRecord(s, s4, r, Accepted);
    ClaimSettles(s4, r, response, max);
    var s5 := Step(s4, ClaimWritten(c.id, response, true), max);
    var s6 := Step(s5, ClaimReleased(c.id), max);
    RecordedIsReplayed(s6, r, response);
    CommittedIsReplayed(s6, r, c, response);
    RunNothing(s6, max);
    RunCons(s5, ClaimReleased(c.id), [], max);
    var tail := [ClaimReleased(c.id)] + [];
    RunCons(s4, ClaimWritten(c.id, response, true), tail, max);
    RunCons(s3, ClaimEnded(c.id), [ClaimWritten(c.id, response, true)] + tail, max);
    tail := [ClaimEnded(c.id)] + ([ClaimWritten(c.id, response, true)] + tail);
    RunCons(s2, ClaimStarted(c.id), tail, max);
    RunCons(s1, CallbackFired(c), [ClaimStarted(c.id)] + tail, max);
    RunCons(s, Dispatched(c), [CallbackFired(c)] + ([ClaimStarted(c.id)] + tail), max);
  }

  lemma CommittedIsReplayed(s: State, r: Request, c: Request, response: Response)
    requires Recorded(s, r, response) && !s.closing && r.mode.PrepareMode? && Preparable(r) && !response.Accepted?
    requires c == r.(mode := CommitMode)
    ensures Answer(s, c) == Replayed(response)
  {
    hide Find, Answer;
    CommitIsAnswered(s, c);
  }

  // ----- Restart -----

  /** An operation that was still accepted when the supervisor stopped is answered as interrupted. */
  lemma RestartInterrupts(s: State, r: Request, writeOk: bool, max: nat)
    requires Sound(s) && |s.durable| <= max && !r.mode.CommitMode? && (r.mode.PrepareMode? ==> Preparable(r))
    requires Recorded(s, r, Accepted)
    ensures Answer(Step(s, Restarted(writeOk), max), r) == Replayed(Failed("INTERRUPTED"))
  {
    hide Find, Ids, UniqueIds, Answer, AcceptStep, RecordStep, DispatchStep, CallbackStep, Initialize;
    var s' := Step(s, Restarted(writeOk), max);
    InitializeKeeps(s.durable, max, r.id);
    AllKept(s.durable, max, r.id);
    AdmissibleIsAnswered(s', r);
  }

  lemma AllKept(log: Log, max: nat, id: string)
    requires |log| <= max
    ensures id in Ids(Initialize(log, max)) <==> id in Ids(log)
  {
    InterruptedAtStart(log, max);
    var log' := Initialize(log, max);
    assert forall i :: 0 <= i < |log| ==> log'[i].id == log[i].id;
    if id in Ids(log) {
      var i :| 0 <= i < |log| && log[i].id == id;
      assert log'[i].id == id;
    }
  }
}
