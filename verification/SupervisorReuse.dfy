// When an operation may run more often than it was accepted: exactly when its id is prepared,
// committed and executed directly. Then a reply callback can outlive the eviction of its record and
// claim the record of a later acceptance.
module SupervisorReuse {
  import opened Wrappers
  import opened StateStore
  import opened Supervisor
  import opened SupervisorSafety

  // ----- Ids used in one way only -----

  predicate Dispatches(events: seq<Event>, id: string, mode: Mode) {
    exists i :: 0 <= i < |events| && events[i].Dispatched? && events[i].request.id == id
        && events[i].request.mode == mode
  }

  /** No reply callback of this id is outstanding. */
  ghost predicate NeverCommitted(s: State, id: string) {
    Count(s.stale, id) == 0 && forall r :: r in s.callbacks ==> r.id != id
  }

  /** Whatever of this id is accepted was prepared. */
  ghost predicate NeverExecuted(s: State, id: string) {
    && Count(s.stale, id) == 0
    && (id in s.inflight ==> s.inflight[id].request.mode.PrepareMode?)
    && (Find(s.operations, id).Some? && Find(s.operations, id).value.response.Accepted?
        ==> Find(s.operations, id).value.dispatch.Prepare?)
  }

  /** Nothing of this id is, or is being, prepared. */
  ghost predicate NeverPrepared(s: State, id: string) {
    && NeverCommitted(s, id)
    && (id in s.inflight ==> !s.inflight[id].request.mode.PrepareMode?)
    && (Find(s.operations, id).Some? && Find(s.operations, id).value.response.Accepted?
        ==> !Find(s.operations, id).value.dispatch.Prepare?)
  }

  lemma DispatchNeverCommitted(s: State, r: Request, id: string)
    requires NeverCommitted(s, id) && (r.id != id || !r.mode.CommitMode?)
    ensures NeverCommitted(DispatchStep(s, r), id)
  {
    DispatchShape(s, r);
    CallbackIsCommit(s, r);
    hide DispatchStep, Answer;
  }

  lemma CallbackNeverCommitted(s: State, r: Request, id: string)
    requires NeverCommitted(s, id)
    ensures NeverCommitted(CallbackStep(s, r), id)
  {
    CallbackShape(s, r);
    hide CallbackStep, Find;
  }

  /** The other steps leave the callbacks alone, or drop them all. */
  lemma OthersNeverCommitted(s: State, e: Event, id: string, max: nat)
    requires NeverCommitted(s, id) && !e.Dispatched? && !e.CallbackFired?
    ensures NeverCommitted(Step(s, e, max), id)
  {
    CallbacksStay(s, e, max);
    hide Step, Run;
  }

  lemma CallbacksStay(s: State, e: Event, max: nat)
    requires !e.Dispatched? && !e.CallbackFired?
    ensures var s' := Step(s, e, max);
      s'.stale == s.stale && (s'.callbacks == s.callbacks || s'.callbacks == multiset{})
  {
    hide AcceptStep, RecordStep, DispatchStep, CallbackStep, RestartStep, Enter;
    if MovesPromise(e) || MovesClaim(e) {
      hide Step;
      MoveShape(s, e, max);
    } else {
      match e
      case AcceptWritten(at, ok) => AcceptStepFrame(s, at, ok, max);
      case CompleteWritten(at, response, ok) =>
        if InPhase(s, at, Recording) {
          RecordFrame(Enter(s, at, Settled), at, response, ok);
          EnterFrame(s, at, Settled);
        }
      case ClaimWritten(at, response, ok) => RecordFrame(s.(claims := s.claims[at := Done]), at, response, ok);
      case Restarted(writeOk) => RestartFrame(s, writeOk, max);
      case _ =>
    }
  }

  lemma EnterFrame(s: State, at: string, phase: Phase)
    requires at in s.inflight
    ensures Enter(s, at, phase).stale == s.stale && Enter(s, at, phase).callbacks == s.callbacks
  {
  }

  lemma RecordFrame(s: State, at: string, response: Response, ok: bool)
    ensures var s' := RecordStep(s, at, response, ok);
      s' == s.(operations := s'.operations, durable := s'.durable)
  {
    hide Complete, Ids;
  }

  lemma RestartFrame(s: State, writeOk: bool, max: nat)
    ensures RestartStep(s, writeOk, max).stale == s.stale && RestartStep(s, writeOk, max).callbacks == multiset{}
  {
    hide Initialize, Ids;
  }

  lemma StepNeverCommitted(s: State, e: Event, id: string, max: nat)
    requires NeverCommitted(s, id)
    requires e.Dispatched? ==> e.request.id != id || !e.request.mode.CommitMode?
    ensures NeverCommitted(Step(s, e, max), id)
  {
    hide NeverCommitted, DispatchStep, CallbackStep, AcceptStep, RecordStep, RestartStep;
    match e {
      case Dispatched(r) => DispatchNeverCommitted(s, r, id);
      case CallbackFired(r) => CallbackNeverCommitted(s, r, id);
      case _ => OthersNeverCommitted(s, e, id, max);
    }
  }

  lemma CallbackIsCommit(s: State, r: Request)
    ensures Answer(s, r).Callback? ==> r.mode.CommitMode?
    ensures Answer(s, r).Began? ==> !r.mode.CommitMode?
  {
  }

  lemma AcceptStepFrame(s: State, at: string, ok: bool, max: nat)
    ensures var s' := AcceptStep(s, at, ok, max);
      && s'.stale == s.stale && s'.callbacks == s.callbacks && s'.claims == s.claims && s'.effects == s.effects
      && (s'.operations == s.operations
          || (InPhase(s, at, Accepting)
            && s'.operations == Accept(s.operations, NewRecord(s.inflight[at].request), max)))
      && s'.inflight.Keys == s.inflight.Keys
      && (forall id :: id in s.inflight ==> s'.inflight[id].request == s.inflight[id].request)
  {
    hide Accept, Ids;
  }

  lemma AcceptNeverExecuted(s: State, at: string, ok: bool, id: string, max: nat)
    requires Sound(s) && max > 0 && NeverExecuted(s, id)
    ensures NeverExecuted(AcceptStep(s, at, ok, max), id)
  {
    hide Accept, Find, Ids, UniqueIds;
    AcceptStepFrame(s, at, ok, max);
    if InPhase(s, at, Accepting) {
      AcceptKeeps(s.operations, NewRecord(s.inflight[at].request), max, id);
    }
    hide Sound, AcceptStep;
  }

  lemma RecordNeverExecuted(s: State, at: string, response: Response, ok: bool, id: string)
    requires NeverExecuted(s, id) && !response.Accepted?
    ensures NeverExecuted(RecordStep(s, at, response, ok), id)
  {
    hide Complete, Find, Ids;
    CompleteKeeps(s.operations, at, response);
  }

  lemma RestartNeverExecuted(s: State, writeOk: bool, id: string, max: nat)
    requires Sound(s) && NeverExecuted(s, id)
    ensures NeverExecuted(RestartStep(s, writeOk, max), id)
  {
    hide Initialize, Find, Ids, UniqueIds;
    InitializeKeeps(s.durable, max, id);
  }

  lemma DispatchNeverExecuted(s: State, r: Request, id: string)
    requires NeverExecuted(s, id) && (r.id != id || !r.mode.ExecuteMode?)
    ensures NeverExecuted(DispatchStep(s, r), id)
  {
    DispatchShape(s, r);
    CallbackIsCommit(s, r);
    hide DispatchStep, Answer, Find;
  }

  lemma CallbackNeverExecuted(s: State, r: Request, id: string)
    requires NeverExecuted(s, id)
    ensures NeverExecuted(CallbackStep(s, r), id)
  {
    CallbackShape(s, r);
    hide CallbackStep, Find;
  }

  lemma EnterNeverExecuted(s: State, at: string, phase: Phase, id: string)
    requires NeverExecuted(s, id) && at in s.inflight
    ensures NeverExecuted(Enter(s, at, phase), id)
  {
    hide Find;
  }

  lemma MoveNeverExecuted(s: State, e: Event, id: string, max: nat)
    requires NeverExecuted(s, id)
    requires MovesPromise(e) || MovesClaim(e)
    ensures NeverExecuted(Step(s, e, max), id)
  {
    MoveShape(s, e, max);
    hide Step, Find;
  }

  lemma ClaimsNeverExecuted(s: State, claims: map<string, Claim>, id: string)
    requires NeverExecuted(s, id)
    ensures NeverExecuted(s.(claims := claims), id)
  {
    hide Find;
  }

  lemma StepNeverExecuted(s: State, e: Event, id: string, max: nat)
    requires Sound(s) && max > 0 && NeverExecuted(s, id)
    requires e.Dispatched? ==> e.request.id != id || !e.request.mode.ExecuteMode?
    ensures NeverExecuted(Step(s, e, max), id)
  {
    hide NeverExecuted, Sound, RecordStep, AcceptStep, RestartStep, DispatchStep, CallbackStep;
    match e {
      case Dispatched(r) => DispatchNeverExecuted(s, r, id);
      case AcceptWritten(at, ok) => AcceptNeverExecuted(s, at, ok, id, max);
      case CompleteWritten(at, response, ok) =>
        if InPhase(s, at, Recording) && !response.Accepted? {
          EnterNeverExecuted(s, at, Settled, id);
          RecordNeverExecuted(Enter(s, at, Settled), at, response, ok, id);
        }
      case ClaimWritten(at, response, ok) =>
        if InClaim(s, at, Completing) && !response.Accepted? {
          ClaimsNeverExecuted(s, s.claims[at := Done], id);
          RecordNeverExecuted(s.(claims := s.claims[at := Done]), at, response, ok, id);
        }
      case Restarted(writeOk) => RestartNeverExecuted(s, writeOk, id, max);
      case CallbackFired(r) => CallbackNeverExecuted(s, r, id);
      case _ => MoveNeverExecuted(s, e, id, max);
    }
  }

  // ----- Ids that are never prepared -----

  lemma AcceptNeverPrepared(s: State, at: string, ok: bool, id: string, max: nat)
    requires Sound(s) && max > 0 && NeverPrepared(s, id)
    ensures NeverPrepared(AcceptStep(s, at, ok, max), id)
  {
    hide Accept, Find, Ids, UniqueIds;
    AcceptStepFrame(s, at, ok, max);
    if InPhase(s, at, Accepting) {
      AcceptKeeps(s.operations, NewRecord(s.inflight[at].request), max, id);
    }
    hide Sound, AcceptStep;
  }

  lemma RecordNeverPrepared(s: State, at: string, response: Response, ok: bool, id: string)
    requires NeverPrepared(s, id) && !response.Accepted?
    ensures NeverPrepared(RecordStep(s, at, response, ok), id)
  {
    hide Complete, Find, Ids;
    CompleteKeeps(s.operations, at, response);
  }

  lemma RestartNeverPrepared(s: State, writeOk: bool, id: string, max: nat)
    requires Sound(s) && NeverPrepared(s, id)
    ensures NeverPrepared(RestartStep(s, writeOk, max), id)
  {
    hide Initialize, Find, Ids, UniqueIds;
    InitializeKeeps(s.durable, max, id);
  }

  lemma DispatchNeverPrepared(s: State, r: Request, id: string)
    requires NeverPrepared(s, id) && (r.id != id || !r.mode.PrepareMode?)
    ensures NeverPrepared(DispatchStep(s, r), id)
  {
    DispatchShape(s, r);
    CallbackIsCommit(s, r);
    CallbackNeedsPrepared(s, r);
    hide DispatchStep, Answer, Find, Ids;
  }

  lemma CallbackNeedsPrepared(s: State, r: Request)
    ensures Answer(s, r).Callback? ==>
      && Find(s.operations, r.id).Some?
      && Find(s.operations, r.id).value.dispatch.Prepare? && Find(s.operations, r.id).value.response.Accepted?
  {
    hide Find, Ids;
  }

  lemma MoveNeverPrepared(s: State, e: Event, id: string, max: nat)
    requires NeverPrepared(s, id)
    requires MovesPromise(e) || MovesClaim(e)
    ensures NeverPrepared(Step(s, e, max), id)
  {
    MoveShape(s, e, max);
    hide Step, Find;
  }

  lemma CallbackNeverPrepared(s: State, r: Request, id: string)
    requires NeverPrepared(s, id)
    ensures NeverPrepared(CallbackStep(s, r), id)
  {
    CallbackShape(s, r);
    hide CallbackStep, Find;
  }

  lemma EnterNeverPrepared(s: State, at: string, phase: Phase, id: string)
    requires NeverPrepared(s, id) && at in s.inflight
    ensures NeverPrepared(Enter(s, at, phase), id)
  {
    hide Find, NeverCommitted;
    SameNeverCommitted(s, Enter(s, at, phase), id);
  }

  lemma ClaimsNeverPrepared(s: State, claims: map<string, Claim>, id: string)
    requires NeverPrepared(s, id)
    ensures NeverPrepared(s.(claims := claims), id)
  {
    hide Find, NeverCommitted;
    SameNeverCommitted(s, s.(claims := claims), id);
  }

  lemma SameNeverCommitted(s: State, s': State, id: string)
    requires NeverCommitted(s, id) && s'.stale == s.stale && s'.callbacks == s.callbacks
    ensures NeverCommitted(s', id)
  {
  }

  lemma StepNeverPrepared(s: State, e: Event, id: string, max: nat)
    requires Sound(s) && max > 0 && NeverPrepared(s, id)
    requires e.Dispatched? ==> e.request.id != id || !e.request.mode.PrepareMode?
    ensures NeverPrepared(Step(s, e, max), id)
  {
    hide NeverPrepared, Sound, RecordStep, AcceptStep, RestartStep, DispatchStep, CallbackStep;
    match e {
      case Dispatched(r) => DispatchNeverPrepared(s, r, id);
      case AcceptWritten(at, ok) => AcceptNeverPrepared(s, at, ok, id, max);
      case CompleteWritten(at, response, ok) =>
        if InPhase(s, at, Recording) && !response.Accepted? {
          EnterNeverPrepared(s, at, Settled, id);
          RecordNeverPrepared(Enter(s, at, Settled), at, response, ok, id);
        }
      case ClaimWritten(at, response, ok) =>
        if InClaim(s, at, Completing) && !response.Accepted? {
          ClaimsNeverPrepared(s, s.claims[at := Done], id);
          RecordNeverPrepared(s.(claims := s.claims[at := Done]), at, response, ok, id);
        }
      case Restarted(writeOk) => RestartNeverPrepared(s, writeOk, id, max);
      case CallbackFired(r) => CallbackNeverPrepared(s, r, id);
      case _ => MoveNeverPrepared(s, e, id, max);
    }
  }

  lemma {:induction false} NeverPreparedRun(durable: Log, events: seq<Event>, id: string, max: nat)
    requires UniqueIds(durable) && max > 0 && !Dispatches(events, id, PrepareMode)
    ensures NeverPrepared(Run(Boot(durable, max), events, max), id)
  {
    if events == [] {
      hide Initialize, Find;
      InitializeKeeps(durable, max, id);
    } else {
      hide NeverPrepared, Step, Sound, Budget;
      var before, e := events[..|events| - 1], events[|events| - 1];
      assert forall i :: 0 <= i < |before| ==> before[i] == events[i];
      assert !Dispatches(before, id, PrepareMode);
      NeverPreparedRun(durable, before, id, max);
      RunKeepsBudget(durable, before, id, max);
      StepNeverPrepared(Run(Boot(durable, max), before, max), e, id, max);
    }
  }

  lemma {:induction false} OneWayHasNoStaleClaim(durable: Log, events: seq<Event>, id: string, max: nat)
    requires UniqueIds(durable) && max > 0
    ensures var s := Run(Boot(durable, max), events, max);
      && (!Dispatches(events, id, CommitMode) ==> NeverCommitted(s, id))
      && (!Dispatches(events, id, ExecuteMode) ==> NeverExecuted(s, id))
  {
    if events == [] {
      hide Initialize, Find;
      InitializeKeeps(durable, max, id);
    } else {
      hide NeverCommitted, NeverExecuted, Step, Sound, Budget;
      var before, e := events[..|events| - 1], events[|events| - 1];
      var s := Run(Boot(durable, max), before, max);
      OneWayHasNoStaleClaim(durable, before, id, max);
      RunKeepsBudget(durable, before, id, max);
      assert forall i :: 0 <= i < |before| ==> before[i] == events[i];
      if !Dispatches(events, id, CommitMode) {
        assert !Dispatches(before, id, CommitMode);
        StepNeverCommitted(s, e, id, max);
      }
      if !Dispatches(events, id, ExecuteMode) {
        assert !Dispatches(before, id, ExecuteMode);
        StepNeverExecuted(s, e, id, max);
      }
    }
  }

  /** An id that is used in at most two of the three modes runs at most once per acceptance, evictions
      and all. */
  lemma {:induction false} TwoModesRunWithinAcceptances(durable: Log, events: seq<Event>, id: string, max: nat)
    requires UniqueIds(durable) && max > 0
    requires !Dispatches(events, id, CommitMode) || !Dispatches(events, id, ExecuteMode)
        || !Dispatches(events, id, PrepareMode)
    ensures var s := Run(Boot(durable, max), events, max);
      Count(s.effects, id) <= Count(s.accepted, id)
  {
    hide Run, Dispatches;
    OneWayHasNoStaleClaim(durable, events, id, max);
    if !Dispatches(events, id, PrepareMode) {
      NeverPreparedRun(durable, events, id, max);
    }
    EffectsWithinAcceptances(durable, events, id, max);
  }

  // ----- All three modes: the bound fails -----

  function PrepareOf(id: string): Request {
    Request(id, Excubitor, Stop, PrepareMode)
  }

  function CommitOf(id: string): Request {
    Request(id, Excubitor, Stop, CommitMode)
  }

  function ExecuteOf(id: string): Request {
    Request(id, Excubitor, Stop, ExecuteMode)
  }

  /** The `k`-th of the operations that fill the log; its id is longer than `id` by `k + 1`. */
  function OtherOf(id: string, k: nat): Request {
    Request(id + seq(k + 1, _ => '+'), Service("x"), Start, ExecuteMode)
  }

  lemma OthersDiffer(id: string, i: nat, j: nat)
    ensures OtherOf(id, i).id != id && (i != j ==> OtherOf(id, i).id != OtherOf(id, j).id)
  {
    assert |OtherOf(id, i).id| == |id| + i + 1 && |OtherOf(id, j).id| == |id| + j + 1;
  }

  /** Some run of a supervisor that retains `max` records reaches this state. */
  ghost predicate Reaches(s: State, max: nat) {
    exists events :: Run(Boot([], max), events, max) == s
  }

  lemma Extend(s: State, e: Event, max: nat)
    requires Reaches(s, max)
    ensures Reaches(Step(s, e, max), max)
  {
    hide Step, Boot;
    var events :| Run(Boot([], max), events, max) == s;
    assert (events + [e])[..|events|] == events;
    assert Run(Boot([], max), events + [e], max) == Step(s, e, max);
  }

  function RecordOf(id: string, dispatch: StateStore.Dispatch, response: Response): Record {
    Record(id, "excubitor", Stop, dispatch, response)
  }

  /** A state with one record, stored, and no promise pending. */
  function Quiet(record: Record, callbacks: multiset<Request>, effects: map<string, nat>): State {
    State([record], [record], map[], map[], callbacks, false, map[record.id := 1], effects, map[], {})
  }

  lemma PrepareWritten(id: string, max: nat)
    requires max > 0
    ensures Reaches(Quiet(RecordOf(id, Prepare, Accepted), multiset{}, map[]).(
                      inflight := map[id := Inflight(PrepareOf(id), Admitted)]), max)
  {
    var s0 := State([], [], map[], map[], multiset{}, false, map[], map[], map[], {});
    assert Run(Boot([], max), [], max) == s0;
    hide Reaches, RecordStep, RestartStep, CallbackStep;
    var s1 := s0.(inflight := map[id := Inflight(PrepareOf(id), Accepting)]);
    Extend(s0, Dispatched(PrepareOf(id)), max);
    assert Step(s0, Dispatched(PrepareOf(id)), max) == s1;
    var s2 := Step(s1, AcceptWritten(id, true), max);
    Extend(s1, AcceptWritten(id, true), max);
    assert s2.operations == [RecordOf(id, Prepare, Accepted)] && s2.evicted == {};
    assert s2.inflight == map[id := Inflight(PrepareOf(id), Admitted)];
  }

  lemma PrepareSettles(s: State, id: string, max: nat)
    requires s.inflight == map[id := Inflight(PrepareOf(id), Admitted)] && Reaches(s, max)
    ensures Reaches(s.(inflight := map[]), max)
  {
    hide Reaches, RecordStep, AcceptStep, DispatchStep, RestartStep, CallbackStep, Find, Ids;
    Extend(s, Resumed(id), max);
    var s1 := s.(inflight := map[id := Inflight(PrepareOf(id), Settled)]);
    assert Step(s, Resumed(id), max) == s1;
    Extend(s1, Forgotten(id), max);
    assert Step(s1, Forgotten(id), max).inflight == map[];
  }

  lemma CommitTwice(s: State, id: string, max: nat)
    requires s == Quiet(RecordOf(id, Prepare, Accepted), multiset{}, map[]) && Reaches(s, max)
    ensures Reaches(s.(callbacks := multiset{CommitOf(id), CommitOf(id)}), max)
  {
    hide AcceptStep, RecordStep, CallbackStep, RestartStep, Reaches;
    var s1 := Step(s, Dispatched(CommitOf(id)), max);
    Extend(s, Dispatched(CommitOf(id)), max);
    assert s1 == s.(callbacks := multiset{CommitOf(id)});
    Extend(s1, Dispatched(CommitOf(id)), max);
    assert Step(s1, Dispatched(CommitOf(id)), max) == s.(callbacks := multiset{CommitOf(id), CommitOf(id)});
  }

  lemma ClaimTaken(s: State, id: string, max: nat)
    requires Find(s.operations, id) == Some(RecordOf(id, Prepare, Accepted))
    requires !s.closing && s.claims == map[] && s.callbacks == multiset{CommitOf(id), CommitOf(id)} && Reaches(s, max)
    ensures Reaches(s.(callbacks := multiset{CommitOf(id)}, claims := map[id := Waiting]), max)
  {
    hide Reaches, Find, AcceptStep, DispatchStep, RecordStep, RestartStep;
    Extend(s, CallbackFired(CommitOf(id)), max);
    assert Step(s, CallbackFired(CommitOf(id)), max) == CallbackStep(s, CommitOf(id));
    assert CallbackStep(s, CommitOf(id)) == s.(callbacks := multiset{CommitOf(id)}, claims := map[id := Waiting]);
  }

  lemma ClaimRuns(s: State, id: string, max: nat)
    requires !s.closing && s.claims == map[id := Waiting] && Reaches(s, max)
    ensures Reaches(s.(claims := map[id := Completing], effects := Bump(s.effects, id)), max)
  {
    hide Reaches, AcceptStep, DispatchStep, RecordStep, RestartStep, CallbackStep, Bump;
    Extend(s, ClaimStarted(id), max);
    var s1 := s.(claims := map[id := Executing], effects := Bump(s.effects, id));
    assert Step(s, ClaimStarted(id), max) == s1;
    Extend(s1, ClaimEnded(id), max);
    assert Step(s1, ClaimEnded(id), max) == s1.(claims := map[id := Completing]);
  }

  lemma ClaimRecords(s: State, id: string, max: nat)
    requires s.operations == [RecordOf(id, Prepare, Accepted)] && s.claims == map[id := Completing] && Reaches(s, max)
    ensures Reaches(s.(operations := [RecordOf(id, Prepare, Completed)], durable := [RecordOf(id, Prepare, Completed)],
                       claims := map[]), max)
  {
    hide Reaches, AcceptStep, DispatchStep, RestartStep, CallbackStep, RecordStep, Find;
    Extend(s, ClaimWritten(id, Completed, true), max);
    var log := [RecordOf(id, Prepare, Completed)];
    var s1 := s.(claims := map[id := Done], operations := log, durable := log);
    RecordsOnly(s.(claims := map[id := Done]), id);
    assert s.claims[id := Done] == map[id := Done];
    assert Step(s, ClaimWritten(id, Completed, true), max) == s1;
    Extend(s1, ClaimReleased(id), max);
    assert Step(s1, ClaimReleased(id), max) == s1.(claims := map[]);
  }

  lemma RecordsOnly(s: State, id: string)
    requires s.operations == [RecordOf(id, Prepare, Accepted)]
    ensures var log := [RecordOf(id, Prepare, Completed)];
      RecordStep(s, id, Completed, true) == s.(operations := log, durable := log)
  {
    hide Find;
    assert s.operations[0].id == id;
  }

  // ----- Other operations push the record out -----

  function Others(id: string, k: nat): (log: Log)
    ensures |log| == k && forall i :: 0 <= i < k ==> log[i] == NewRecord(OtherOf(id, i))
  {
    seq(k, i requires 0 <= i < k => NewRecord(OtherOf(id, i)))
  }

  /** The finished record followed by `k` others, as far as there is room. */
  function Filled(id: string, k: nat, max: nat): Log {
    Newest([RecordOf(id, Prepare, Completed)] + Others(id, k), max)
  }

  /** `k` other operations were accepted after the first life of `id`; one callback is left over. */
  ghost predicate Filling(s: State, id: string, k: nat, max: nat) {
    && s.operations == Filled(id, k, max) && !s.closing && s.claims == map[]
    && s.callbacks == multiset{CommitOf(id)}
    && Count(s.accepted, id) == 1 && Count(s.effects, id) == 1
    && id !in s.inflight && forall i: nat :: i >= k ==> OtherOf(id, i).id !in s.inflight
  }

  lemma FilledIds(id: string, k: nat, max: nat)
    requires k <= max && max > 0
    ensures OtherOf(id, k).id !in Ids(Filled(id, k, max)) && UniqueIds(Filled(id, k, max))
    ensures k == max ==> Filled(id, k, max) == Others(id, k) && id !in Ids(Filled(id, k, max))
  {
    var whole := [RecordOf(id, Prepare, Completed)] + Others(id, k);
    var log := Filled(id, k, max);
    forall i, j: nat | 0 <= i < |whole| && j > i && (j < |whole| || j == k + 1)
      ensures whole[i].id != if j < |whole| then whole[j].id else OtherOf(id, k).id
    {
      OthersDiffer(id, j - 1, if i == 0 then j - 1 else i - 1);
    }
    assert UniqueIds(whole);
    SuffixIds(whole, |whole| - |log|);
    assert log == whole[|whole| - |log|..];
    assert OtherOf(id, k).id !in Ids(whole);
    if k == max {
      forall i | 0 <= i < k ensures log[i].id != id {
        OthersDiffer(id, i, i);
      }
    }
  }

  lemma FillAppends(id: string, k: nat, max: nat)
    requires k < max
    ensures Accept(Filled(id, k, max), NewRecord(OtherOf(id, k)), max) == Filled(id, k + 1, max)
  {
    hide Ids, UniqueIds;
    FilledIds(id, k, max);
    var log := [RecordOf(id, Prepare, Completed)] + Others(id, k);
    assert Filled(id, k, max) == log;
    KnownIds(log, IndexOf(log, OtherOf(id, k).id), OtherOf(id, k).id);
    assert log + [NewRecord(OtherOf(id, k))] == [RecordOf(id, Prepare, Completed)] + Others(id, k + 1);
  }

  lemma FillOne(s: State, id: string, k: nat, max: nat) returns (s': State)
    requires Reaches(s, max) && Filling(s, id, k, max) && k < max
    ensures Reaches(s', max) && Filling(s', id, k + 1, max)
  {
    hide Reaches, RecordStep, RestartStep, CallbackStep, Filled, Ids, Accept, Find;
    var r := OtherOf(id, k);
    OthersDiffer(id, k, k);
    FilledIds(id, k, max);
    FillAppends(id, k, max);
    Extend(s, Dispatched(r), max);
    var s1 := s.(inflight := s.inflight[r.id := Inflight(r, Accepting)]);
    assert Step(s, Dispatched(r), max) == s1;
    Extend(s1, AcceptWritten(r.id, true), max);
    s' := Step(s1, AcceptWritten(r.id, true), max);
    forall i: nat | i >= k + 1 ensures OtherOf(id, i).id !in s'.inflight {
      OthersDiffer(id, i, k);
    }
  }

  lemma {:induction false} FillLog(s: State, id: string, k: nat, max: nat) returns (s': State)
    requires Reaches(s, max) && Filling(s, id, k, max) && k <= max
    ensures Reaches(s', max) && Filling(s', id, max, max)
    decreases max - k
  {
    hide Reaches, Filling;
    s' := s;
    if k < max {
      s' := FillOne(s, id, k, max);
      s' := FillLog(s', id, k + 1, max);
    }
  }

  // ----- The second life -----

  /** `id` was accepted twice, the second time as a direct execution that may start. */
  ghost predicate Again(s: State, id: string) {
    && Find(s.operations, id) == Some(NewRecord(ExecuteOf(id))) && InPhase(s, id, Queued) && !s.closing
    && Count(s.accepted, id) == 2 && Count(s.effects, id) == 1
  }

  lemma ExecuteAccepted(s: State, id: string, max: nat) returns (s': State)
    requires Reaches(s, max) && Filling(s, id, max, max) && max > 0
    ensures Reaches(s', max) && Again(s', id) && s'.callbacks == multiset{CommitOf(id)} && s'.claims == map[]
  {
    hide Reaches, RecordStep, RestartStep, CallbackStep, Filled, Ids, Accept, Find;
    var r := ExecuteOf(id);
    FilledIds(id, max, max);
    AcceptKeeps(s.operations, NewRecord(r), max, id);
    Extend(s, Dispatched(r), max);
    var s1 := s.(inflight := s.inflight[id := Inflight(r, Accepting)]);
    assert Step(s, Dispatched(r), max) == s1;
    Extend(s1, AcceptWritten(id, true), max);
    var s2 := Step(s1, AcceptWritten(id, true), max);
    Extend(s2, Resumed(id), max);
    s' := Step(s2, Resumed(id), max);
  }

  lemma StaleClaim(s: State, id: string, max: nat) returns (s': State)
    requires Reaches(s, max) && Again(s, id) && s.callbacks == multiset{CommitOf(id)} && s.claims == map[]
    ensures Reaches(s', max) && Again(s', id) && InClaim(s', id, Waiting)
  {
    hide Reaches, AcceptStep, DispatchStep, RecordStep, RestartStep, Find;
    Extend(s, CallbackFired(CommitOf(id)), max);
    s' := Step(s, CallbackFired(CommitOf(id)), max);
  }

  lemma BothRun(s: State, id: string, max: nat) returns (s': State)
    requires Reaches(s, max) && Again(s, id) && InClaim(s, id, Waiting)
    ensures Reaches(s', max) && Count(s'.accepted, id) == 2 && Count(s'.effects, id) == 3
  {
    hide Reaches, RecordStep, AcceptStep, DispatchStep, RestartStep, CallbackStep, Find;
    Extend(s, EffectStarted(id), max);
    var s1 := Step(s, EffectStarted(id), max);
    Extend(s1, ClaimStarted(id), max);
    s' := Step(s1, ClaimStarted(id), max);
  }

  lemma FirstLife(id: string, max: nat) returns (s: State)
    requires max > 0
    ensures Reaches(s, max) && Filling(s, id, 0, max)
  {
    hide Reaches;
    var s0 := Quiet(RecordOf(id, Prepare, Accepted), multiset{}, map[]);
    PrepareWritten(id, max);
    PrepareSettles(s0.(inflight := map[id := Inflight(PrepareOf(id), Admitted)]), id, max);
    CommitTwice(s0, id, max);
    ClaimTaken(s0.(callbacks := multiset{CommitOf(id), CommitOf(id)}), id, max);
    ClaimRuns(s0.(callbacks := multiset{CommitOf(id)}, claims := map[id := Waiting]), id, max);
    ClaimRecords(s0.(callbacks := multiset{CommitOf(id)}, claims := map[id := Completing], effects := map[id := 1]),
      id, max);
    s := Quiet(RecordOf(id, Prepare, Completed), multiset{CommitOf(id)}, map[id := 1]);
  }

  /** However many records are retained: `id` is prepared, committed twice and run once; as many other
      operations evict its record; `id` is accepted again as a direct execution, and the left-over
      callback claims that record too. Two acceptances, three effects. */
  lemma ReuseAfterEvictionRunsTooOften(id: string, max: nat)
    requires max > 0
    ensures exists events ::
      var s := Run(Boot([], max), events, max); Count(s.accepted, id) == 2 && Count(s.effects, id) == 3
  {
    hide Filling, Again, Boot;
    var s := FirstLife(id, max);
    s := FillLog(s, id, 0, max);
    s := ExecuteAccepted(s, id, max);
    s := StaleClaim(s, id, max);
    s := BothRun(s, id, max);
    var events :| Run(Boot([], max), events, max) == s;
  }

  // ----- The exact condition -----

  predicate DispatchesOnly(events: seq<Event>, id: string, modes: set<Mode>) {
    forall i :: 0 <= i < |events| && events[i].Dispatched? && events[i].request.id == id
        ==> events[i].request.mode in modes
  }

  ghost predicate Bounded(id: string, modes: set<Mode>, max: nat) {
    forall durable: Log, events: seq<Event> {:trigger Run(Boot(durable, max), events, max)} ::
      UniqueIds(durable) && DispatchesOnly(events, id, modes) ==>
        Count(Run(Boot(durable, max), events, max).effects, id)
          <= Count(Run(Boot(durable, max), events, max).accepted, id)
  }

  /** An id that is dispatched only in certain modes runs at most once per acceptance in every run if
      and only if it is not prepared, committed and executed directly. */
  lemma BoundedUnlessAllModes(id: string, modes: set<Mode>, max: nat)
    requires max > 0
    ensures Bounded(id, modes, max) <==> !({PrepareMode, CommitMode, ExecuteMode} <= modes)
  {
    hide Run, Boot, Count;
    if {PrepareMode, CommitMode, ExecuteMode} <= modes {
      ReuseAfterEvictionRunsTooOften(id, max);
      var events :| Count(Run(Boot([], max), events, max).accepted, id) == 2
        && Count(Run(Boot([], max), events, max).effects, id) == 3;
      forall m: Mode ensures m in modes {
        match m {
          case PrepareMode =>
          case CommitMode =>
          case ExecuteMode =>
        }
      }
    } else {
      forall durable: Log, events: seq<Event> | UniqueIds(durable) && DispatchesOnly(events, id, modes)
        ensures Count(Run(Boot(durable, max), events, max).effects, id)
          <= Count(Run(Boot(durable, max), events, max).accepted, id)
      {
        TwoModesRunWithinAcceptances(durable, events, id, max);
      }
    }
  }
}
