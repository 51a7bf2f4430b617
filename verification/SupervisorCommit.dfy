// What runs a prepared operation: a commit, or a reply callback that was left over from an earlier life
// of its id.
module SupervisorCommit {
  import opened Wrappers
  import opened StateStore
  import opened Supervisor
  import opened SupervisorSafety
  import opened SupervisorReuse

  // ----- Without a commit or a direct execution nothing runs -----

  /** Nothing of this id is claimed, queued or running: at most it is being prepared. */
  predicate Unclaimed(s: State, id: string) {
    && id !in s.claims
    && (id in s.inflight ==>
          && s.inflight[id].request.mode.PrepareMode?
          && (s.inflight[id].phase.Accepting? || s.inflight[id].phase.Admitted? || s.inflight[id].phase.Settled?))
  }

  ghost predicate NoCallback(s: State, id: string) {
    forall r :: r in s.callbacks ==> r.id != id
  }

  ghost predicate Dormant(s: State, id: string) {
    Unclaimed(s, id) && NoCallback(s, id)
  }

  /** The event asks neither to commit nor to execute this id. */
  predicate AsksNothing(e: Event, id: string) {
    e.Dispatched? && e.request.id == id ==> e.request.mode.PrepareMode?
  }

  lemma DispatchDormant(s: State, r: Request, id: string)
    requires Dormant(s, id) && (r.id == id ==> r.mode.PrepareMode?)
    ensures Dormant(DispatchStep(s, r), id) && DispatchStep(s, r).effects == s.effects
  {
    DispatchShape(s, r);
    CallbackIsCommit(s, r);
    hide DispatchStep, Answer;
  }

  lemma AcceptDormant(s: State, at: string, ok: bool, id: string, max: nat)
    requires Dormant(s, id)
    ensures Dormant(AcceptStep(s, at, ok, max), id) && AcceptStep(s, at, ok, max).effects == s.effects
  {
    hide Accept, Ids;
  }

  lemma CallbackDormant(s: State, r: Request, id: string)
    requires Dormant(s, id)
    ensures Dormant(CallbackStep(s, r), id) && CallbackStep(s, r).effects == s.effects
  {
    hide CallbackStep, Find, Bump;
    CallbackShape(s, r);
  }

  lemma RecordDormant(s: State, at: string, response: Response, ok: bool, id: string)
    ensures var s' := RecordStep(s, at, response, ok);
      Dormant(s, id) ==> Dormant(s', id) && s'.effects == s.effects
  {
    hide Complete, Ids;
  }

  /** Neither a promise nor a claim of this id moves. */
  lemma MoveDormant(s: State, e: Event, id: string, max: nat)
    requires Dormant(s, id) && (MovesPromise(e) || MovesClaim(e))
    ensures Dormant(Step(s, e, max), id) && Count(Step(s, e, max).effects, id) == Count(s.effects, id)
  {
    MoveShape(s, e, max);
    MoveUnclaimed(s, e, id, max);
    hide Step, Unclaimed, Count;
  }

  lemma MoveUnclaimed(s: State, e: Event, id: string, max: nat)
    requires Unclaimed(s, id) && (MovesPromise(e) || MovesClaim(e))
    ensures Unclaimed(Step(s, e, max), id) && Count(Step(s, e, max).effects, id) == Count(s.effects, id)
  {
    hide AcceptStep, RecordStep, DispatchStep, CallbackStep, RestartStep;
  }

  lemma EnterDormant(s: State, at: string, phase: Phase, id: string)
    requires Dormant(s, id) && at in s.inflight && phase.Settled?
    ensures Dormant(Enter(s, at, phase), id)
  {
  }

  lemma DoneDormant(s: State, at: string, id: string)
    requires Dormant(s, id) && at in s.claims
    ensures Dormant(s.(claims := s.claims[at := Done]), id)
  {
  }

  lemma StepDormant(s: State, e: Event, id: string, max: nat)
    requires Dormant(s, id) && AsksNothing(e, id)
    ensures Dormant(Step(s, e, max), id) && Count(Step(s, e, max).effects, id) == Count(s.effects, id)
  {
    hide Dormant, DispatchStep, AcceptStep, RecordStep, CallbackStep, RestartStep;
    match e {
      case Dispatched(r) => DispatchDormant(s, r, id);
      case AcceptWritten(at, ok) => AcceptDormant(s, at, ok, id, max);
      case CallbackFired(r) => CallbackDormant(s, r, id);
      case Restarted(writeOk) => RestartDormant(s, writeOk, id, max);
      case CompleteWritten(at, response, ok) =>
        if InPhase(s, at, Recording) && !response.Accepted? {
          EnterDormant(s, at, Settled, id);
          RecordDormant(Enter(s, at, Settled), at, response, ok, id);
        }
      case ClaimWritten(at, response, ok) =>
        if InClaim(s, at, Completing) && !response.Accepted? {
          DoneDormant(s, at, id);
          RecordDormant(s.(claims := s.claims[at := Done]), at, response, ok, id);
        }
      case _ => MoveDormant(s, e, id, max);
    }
  }

  lemma RestartDormant(s: State, writeOk: bool, id: string, max: nat)
    ensures Dormant(RestartStep(s, writeOk, max), id) && RestartStep(s, writeOk, max).effects == s.effects
  {
    hide Initialize, Ids;
  }

  predicate AskNothing(events: seq<Event>, id: string) {
    forall i :: 0 <= i < |events| ==> AsksNothing(events[i], id)
  }

  /** A dormant id stays so, and does not run, until it is committed or executed. */
  lemma {:induction false} DormantRun(s: State, events: seq<Event>, id: string, max: nat)
    requires Dormant(s, id) && AskNothing(events, id)
    ensures Dormant(Run(s, events, max), id) && Count(Run(s, events, max).effects, id) == Count(s.effects, id)
  {
    if events != [] {
      hide Dormant, AsksNothing, Step, Count;
      var before, e := events[..|events| - 1], events[|events| - 1];
      assert forall i :: 0 <= i < |before| ==> before[i] == events[i];
      DormantRun(s, before, id, max);
      StepDormant(Run(s, before, max), e, id, max);
    }
  }

  /** An id that was neither committed nor executed directly has not run, however it was prepared and
      whatever was evicted or restarted. */
  lemma {:induction false} PreparingRunsNothing(durable: Log, events: seq<Event>, id: string, max: nat)
    requires !Dispatches(events, id, CommitMode) && !Dispatches(events, id, ExecuteMode)
    ensures Count(Run(Boot(durable, max), events, max).effects, id) == 0
  {
    hide Run, Initialize;
    assert AskNothing(events, id);
    assert Dormant(Boot(durable, max), id);
    DormantRun(Boot(durable, max), events, id, max);
  }

  // ----- A retained prepared operation runs after its commit -----

  predicate PreparedRecord(log: Log, id: string) {
    Find(log, id).Some? && Find(log, id).value.dispatch.Prepare?
  }

  /** A preparation in flight settles without being queued, and a prepared record has no other promise. */
  predicate Settling(inflight: map<string, Inflight>, log: Log, id: string) {
    id in inflight ==>
      && (inflight[id].request.mode.PrepareMode? ==>
            !inflight[id].phase.Queued? && !inflight[id].phase.Running? && !inflight[id].phase.Recording?)
      && (PreparedRecord(log, id) ==> inflight[id].request.mode.PrepareMode?)
  }

  /** While the record of this id was never evicted, memory and file agree on how it was dispatched, and
      a prepared one has not run. */
  predicate Waits(evicted: set<string>, log: Log, durable: Log, effects: map<string, nat>, id: string) {
    id !in evicted ==>
      && (PreparedRecord(log, id) <==> PreparedRecord(durable, id))
      && (PreparedRecord(log, id) ==> Count(effects, id) == 0)
  }

  /** No commit of this id was ever dispatched. */
  ghost predicate Uncommitted(s: State, id: string) {
    && NoCallback(s, id) && id !in s.claims
    && Settling(s.inflight, s.operations, id)
    && Waits(s.evicted, s.operations, s.durable, s.effects, id)
  }

  lemma DispatchUncommitted(s: State, r: Request, id: string)
    requires Uncommitted(s, id) && (r.id == id ==> !r.mode.CommitMode?)
    ensures Uncommitted(DispatchStep(s, r), id)
  {
    DispatchShape(s, r);
    CallbackIsCommit(s, r);
    BeganIsNew(s, r);
    hide DispatchStep, Answer, Waits;
  }

  lemma OwnAcceptUncommitted(s: State, id: string, max: nat)
    requires Uncommitted(s, id) && Traced(s, id) && Budget(s, id) && max > 0 && InPhase(s, id, Accepting)
    ensures Uncommitted(AcceptStep(s, id, true, max), id)
  {
    hide Accept, Ids, UniqueIds, Find, NothingYet, OnlyPrepared, Stored;
    AcceptKeeps(s.operations, NewRecord(s.inflight[id].request), max, id);
  }

  lemma OtherAcceptUncommitted(s: State, at: string, id: string, max: nat)
    requires Uncommitted(s, id) && Sound(s) && max > 0 && InPhase(s, at, Accepting) && at != id
    ensures Uncommitted(AcceptStep(s, at, true, max), id)
  {
    hide Accept, Ids, UniqueIds, Find;
    AcceptKeeps(s.operations, NewRecord(s.inflight[at].request), max, id);
  }

  lemma EnteredUncommitted(s: State, at: string, phase: Phase, id: string)
    requires Uncommitted(s, id) && at in s.inflight
    requires at == id && s.inflight[at].request.mode.PrepareMode? ==> phase.Settled? || phase.Admitted?
    ensures Uncommitted(Enter(s, at, phase), id)
  {
    hide Waits, PreparedRecord;
  }

  lemma MoveUncommitted(s: State, e: Event, id: string, max: nat)
    requires Uncommitted(s, id) && (MovesPromise(e) || MovesClaim(e))
    ensures Uncommitted(Step(s, e, max), id)
  {
    MoveShape(s, e, max);
    MoveWaits(s, e, id, max);
    hide Step, PreparedRecord, Waits, Settling;
  }

  lemma MoveWaits(s: State, e: Event, id: string, max: nat)
    requires id !in s.claims && (MovesPromise(e) || MovesClaim(e))
    requires Settling(s.inflight, s.operations, id) && Waits(s.evicted, s.operations, s.durable, s.effects, id)
    ensures var s' := Step(s, e, max);
      && id !in s'.claims && Settling(s'.inflight, s.operations, id)
      && Waits(s.evicted, s.operations, s'.durable, s'.effects, id)
  {
    hide PreparedRecord, AcceptStep, RecordStep, DispatchStep, CallbackStep, RestartStep;
  }

  lemma CompletePrepared(log: Log, at: string, response: Response, id: string)
    ensures PreparedRecord(Complete(log, at, response), id) <==> PreparedRecord(log, id)
  {
    hide Complete, Find, Ids;
    CompleteKeeps(log, at, response);
    assert at !in Ids(log) ==> Find(log, at) == None && Find(Complete(log, at, response), at) == None;
  }

  lemma RecordUncommitted(s: State, at: string, response: Response, ok: bool, id: string)
    requires Uncommitted(s, id)
    ensures Uncommitted(RecordStep(s, at, response, ok), id)
  {
    hide Complete, PreparedRecord, Ids;
    CompletePrepared(s.operations, at, response, id);
  }

  lemma ClaimsUncommitted(s: State, claims: map<string, Claim>, id: string)
    requires Uncommitted(s, id) && id !in claims
    ensures Uncommitted(s.(claims := claims), id)
  {
    hide Waits, Settling;
  }

  lemma CallbackUncommitted(s: State, r: Request, id: string)
    requires Uncommitted(s, id)
    ensures Uncommitted(CallbackStep(s, r), id)
  {
    hide CallbackStep, Find, Bump, Waits, Settling;
    CallbackShape(s, r);
  }

  lemma RestartUncommitted(s: State, writeOk: bool, id: string, max: nat)
    requires Uncommitted(s, id) && Sound(s)
    ensures Uncommitted(RestartStep(s, writeOk, max), id)
  {
    hide Initialize, Ids, UniqueIds, Find;
    InitializeKeeps(s.durable, max, id);
  }

  lemma StepUncommitted(s: State, e: Event, id: string, max: nat)
    requires Uncommitted(s, id) && Traced(s, id) && Sound(s) && Budget(s, id) && max > 0
    requires e.Dispatched? && e.request.id == id ==> !e.request.mode.CommitMode?
    ensures Uncommitted(Step(s, e, max), id)
  {
    hide Uncommitted, Traced, Sound, Budget, DispatchStep, RecordStep, CallbackStep, RestartStep;
    match e {
      case Dispatched(r) => DispatchUncommitted(s, r, id);
      case AcceptWritten(at, ok) =>
        if InPhase(s, at, Accepting) {
          if !ok {
            EnteredUncommitted(s, at, Settled, id);
          } else {
            hide AcceptStep;
            if at == id {
              OwnAcceptUncommitted(s, id, max);
            } else {
              OtherAcceptUncommitted(s, at, id, max);
            }
          }
        }
      case CompleteWritten(at, response, ok) =>
        if InPhase(s, at, Recording) && !response.Accepted? {
          EnteredUncommitted(s, at, Settled, id);
          RecordUncommitted(Enter(s, at, Settled), at, response, ok, id);
        }
      case ClaimWritten(at, response, ok) =>
        if InClaim(s, at, Completing) && !response.Accepted? {
          NotClaimed(s, id);
          ClaimsUncommitted(s, s.claims[at := Done], id);
          RecordUncommitted(s.(claims := s.claims[at := Done]), at, response, ok, id);
        }
      case Restarted(writeOk) => RestartUncommitted(s, writeOk, id, max);
      case CallbackFired(r) => CallbackUncommitted(s, r, id);
      case _ => MoveUncommitted(s, e, id, max);
    }
  }

  lemma NotClaimed(s: State, id: string)
    requires Uncommitted(s, id)
    ensures id !in s.claims
  {
  }

  lemma BootUncommitted(durable: Log, id: string, max: nat)
    requires UniqueIds(durable)
    ensures Uncommitted(Boot(durable, max), id)
  {
    hide Initialize, Ids, UniqueIds, Find;
    InitializeKeeps(durable, max, id);
  }

  lemma {:induction false} UncommittedRun(durable: Log, events: seq<Event>, id: string, max: nat)
    requires UniqueIds(durable) && max > 0 && !Dispatches(events, id, CommitMode)
    ensures Uncommitted(Run(Boot(durable, max), events, max), id)
  {
    if events == [] {
      BootUncommitted(durable, id, max);
    } else {
      hide Uncommitted, Traced, Step, Sound, Budget, Boot;
      var before, e := events[..|events| - 1], events[|events| - 1];
      assert forall i :: 0 <= i < |before| ==> before[i] == events[i];
      assert !Dispatches(before, id, CommitMode);
      UncommittedRun(durable, before, id, max);
      RunKeepsTraced(durable, before, id, max);
      RunKeepsBudget(durable, before, id, max);
      StepUncommitted(Run(Boot(durable, max), before, max), e, id, max);
    }
  }

  /** A prepared operation whose record was never evicted has run only if a commit of it was dispatched
      before, whatever else was asked of its id. */
  lemma {:induction false} RetainedRunsAfterCommit(durable: Log, events: seq<Event>, id: string, max: nat)
    requires UniqueIds(durable) && max > 0
    requires var s := Run(Boot(durable, max), events, max);
      id !in s.evicted && PreparedRecord(s.operations, id) && Count(s.effects, id) > 0
    ensures Dispatches(events, id, CommitMode)
  {
    hide Run, Boot, PreparedRecord, Settling;
    if !Dispatches(events, id, CommitMode) {
      UncommittedRun(durable, events, id, max);
    }
  }

  // ----- A left-over callback -----

  /** Some continuation that neither commits nor executes this id runs it. */
  ghost predicate CanRunUnasked(s: State, id: string, max: nat) {
    exists events :: AskNothing(events, id) && Count(Run(s, events, max).effects, id) > Count(s.effects, id)
  }

  /** A prepared operation that waits for its commit can run without one if and only if a reply callback
      of its id is outstanding. */
  lemma RunsUnaskedIffCallback(s: State, id: string, max: nat)
    requires Unclaimed(s, id) && !s.closing
    requires Find(s.operations, id).Some? && Find(s.operations, id).value.response.Accepted?
    ensures CanRunUnasked(s, id, max) <==> !NoCallback(s, id)
  {
    if NoCallback(s, id) {
      hide Run, Unclaimed, NoCallback, Count;
      forall events | AskNothing(events, id)
        ensures Count(Run(s, events, max).effects, id) == Count(s.effects, id)
      {
        DormantRun(s, events, id, max);
      }
    } else {
      var r :| r in s.callbacks && r.id == id;
      CallbackRuns(s, r, max);
    }
  }

  lemma CallbackRuns(s: State, r: Request, max: nat)
    requires r in s.callbacks && r.id !in s.claims && !s.closing
    requires Find(s.operations, r.id).Some? && Find(s.operations, r.id).value.response.Accepted?
    ensures CanRunUnasked(s, r.id, max)
  {
    hide Find;
    var events := [CallbackFired(r), ClaimStarted(r.id)];
    var s1 := CallbackStep(s, r);
    assert InClaim(s1, r.id, Waiting) && !s1.closing && s1.effects == s.effects;
    assert events[..1] == [CallbackFired(r)] && events[..1][..0] == [];
    hide CallbackStep;
    assert Run(s, events[..1], max) == s1;
    assert Run(s, events, max) == Step(s1, ClaimStarted(r.id), max);
    assert AskNothing(events, r.id);
  }

  /** It happens, however many records are retained: `id` is prepared, committed twice and run once, its
      record is evicted, `id` is prepared again, and before any other commit the left-over callback can
      run it. */
  lemma SecondPreparationRunsUnasked(id: string, max: nat)
    requires max > 0
    ensures exists s ::
      && Reaches(s, max) && Find(s.operations, id) == Some(NewRecord(PrepareOf(id)))
      && Count(s.accepted, id) == 2 && Count(s.effects, id) == 1 && CanRunUnasked(s, id, max)
  {
    hide Filling, Reaches, CanRunUnasked;
    var s := FirstLife(id, max);
    s := FillLog(s, id, 0, max);
    s := PreparedAgain(s, id, max);
  }

  lemma PreparedAgain(s: State, id: string, max: nat) returns (s': State)
    requires Reaches(s, max) && Filling(s, id, max, max) && max > 0
    ensures Reaches(s', max) && Find(s'.operations, id) == Some(NewRecord(PrepareOf(id)))
    ensures Count(s'.accepted, id) == 2 && Count(s'.effects, id) == 1 && CanRunUnasked(s', id, max)
  {
    hide Reaches, RecordStep, RestartStep, CallbackStep, Filled, Ids, Accept, Find, CanRunUnasked;
    var r := PrepareOf(id);
    FilledIds(id, max, max);
    AcceptKeeps(s.operations, NewRecord(r), max, id);
    Extend(s, Dispatched(r), max);
    var s1 := s.(inflight := s.inflight[id := Inflight(r, Accepting)]);
    assert Step(s, Dispatched(r), max) == s1;
    Extend(s1, AcceptWritten(id, true), max);
    s' := Step(s1, AcceptWritten(id, true), max);
    CallbackRuns(s', CommitOf(id), max);
  }
}
