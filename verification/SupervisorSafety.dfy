// At-most-once execution over every run of the supervisor protocol.
module SupervisorSafety {
  import opened StateStore
  import opened Supervisor

  // ----- Rights: what may still start an effect of an operation -----

  /** An admitted `execute` operation whose effect has not started. */
  function ExecuteRight(inflight: map<string, Inflight>, id: string): nat {
    if id !in inflight then 0
    else match inflight[id].phase
      case Queued => 1
      case Admitted => if inflight[id].request.mode.PrepareMode? then 0 else 1
      case _ => 0
  }

  /** A claimed callback whose effect has not started. */
  function ClaimRight(claims: map<string, Claim>, id: string): nat {
    if id in claims && claims[id].Waiting? then 1 else 0
  }

  /** A prepared record that is still accepted and not in the hands of a claim. */
  function RecordRight(log: Log, claims: map<string, Claim>, id: string): nat {
    match Find(log, id)
    case None => 0
    case Some(record) =>
      if record.response.Accepted? && record.dispatch.Prepare? && (id in claims ==> claims[id].Done?) then 1 else 0
  }

  predicate Budget(s: State, id: string) {
    Count(s.effects, id) + ExecuteRight(s.inflight, id) + ClaimRight(s.claims, id)
      + RecordRight(s.operations, s.claims, id)
      <= Count(s.accepted, id) + Count(s.stale, id)
  }

  // ----- Auxiliary facts -----

  /** An entry belongs to its own id, and while an acceptance is being written there is no record. */
  ghost predicate InflightSound(inflight: map<string, Inflight>, log: Log) {
    forall id :: id in inflight ==>
      && inflight[id].request.id == id && !inflight[id].request.mode.CommitMode?
      && (inflight[id].request.mode.PrepareMode? ==> Deferred(inflight[id].request))
      && (inflight[id].phase.Accepting? ==> id !in Ids(log))
  }

  ghost predicate Sound(s: State) {
    UniqueIds(s.operations) && UniqueIds(s.durable) && InflightSound(s.inflight, s.operations)
  }

  lemma AcceptWrittenKeeps(s: State, at: string, ok: bool, id: string, max: nat)
    requires Sound(s) && max > 0
    ensures var s' := AcceptStep(s, at, ok, max);
      Sound(s') && (Budget(s, id) ==> Budget(s', id))
  {
    hide Accept, Find, Ids, UniqueIds, RecordStep, DispatchStep, CallbackStep, RestartStep, Deferred;
    if InPhase(s, at, Accepting) && ok {
      AcceptKeeps(s.operations, NewRecord(s.inflight[at].request), max, id);
    }
  }

  /** Recording a response never adds a right, and takes the prepared right of that record. */
  lemma RecordKeeps(s: State, at: string, response: Response, ok: bool, id: string)
    requires Sound(s) && !response.Accepted?
    ensures var s' := RecordStep(s, at, response, ok);
      && Sound(s') && RecordRight(s'.operations, s.claims, id) <= RecordRight(s.operations, s.claims, id)
      && (id == at ==> RecordRight(s'.operations, s.claims, id) == 0)
      && s' == s.(operations := s'.operations, durable := s'.durable)
  {
    hide Complete, Find, Ids, UniqueIds;
    CompleteKeeps(s.operations, at, response);
  }

  lemma CompleteWrittenKeeps(s: State, at: string, response: Response, ok: bool, id: string, max: nat)
    requires Sound(s)
    ensures var s' := Step(s, CompleteWritten(at, response, ok), max);
      Sound(s') && (Budget(s, id) ==> Budget(s', id))
  {
    hide RecordStep, Find, Ids, UniqueIds;
    if InPhase(s, at, Recording) && !response.Accepted? {
      RecordKeeps(Enter(s, at, Settled), at, response, ok, id);
    }
  }

  lemma ClaimWrittenKeeps(s: State, at: string, response: Response, ok: bool, id: string, max: nat)
    requires Sound(s)
    ensures var s' := Step(s, ClaimWritten(at, response, ok), max);
      Sound(s') && (Budget(s, id) ==> Budget(s', id))
  {
    hide RecordStep, Find, Ids, UniqueIds;
    if InClaim(s, at, Completing) && !response.Accepted? {
      RecordKeeps(s.(claims := s.claims[at := Done]), at, response, ok, id);
    }
  }

  lemma RestartKeeps(s: State, writeOk: bool, id: string, max: nat)
    requires Sound(s)
    ensures var s' := RestartStep(s, writeOk, max);
      Sound(s') && (Budget(s, id) ==> Budget(s', id))
  {
    hide Initialize, Find, Ids, UniqueIds;
    InitializeKeeps(s.durable, max, id);
  }

  /** The callback may claim: nobody else did, and the record is still accepted. */
  predicate Claimable(s: State, r: Request) {
    && r in s.callbacks && r.id !in s.claims
    && Find(s.operations, r.id).Some? && Find(s.operations, r.id).value.response.Accepted?
  }

  function ClaimBy(s: State, r: Request): State
    requires Claimable(s, r)
  {
    s.(claims := s.claims[r.id := Waiting],
       stale := if Find(s.operations, r.id).value.dispatch.Prepare? then s.stale else Bump(s.stale, r.id))
  }

  lemma CallbackShape(s: State, r: Request)
    ensures var s', rest := CallbackStep(s, r), s.callbacks - multiset{r};
      s' == s.(callbacks := rest) || (Claimable(s, r) && s' == ClaimBy(s, r).(callbacks := rest))
  {
    hide Find, Bump;
    assert r !in s.callbacks ==> s.callbacks - multiset{r} == s.callbacks;
  }

  lemma ClaimByKeeps(s: State, r: Request, id: string)
    requires Sound(s) && Claimable(s, r)
    ensures Sound(ClaimBy(s, r)) && (Budget(s, id) ==> Budget(ClaimBy(s, r), id))
  {
    hide Find, Ids, UniqueIds, InflightSound, ExecuteRight;
  }

  lemma CallbackKeeps(s: State, r: Request, id: string)
    requires Sound(s)
    ensures var s' := CallbackStep(s, r);
      Sound(s') && (Budget(s, id) ==> Budget(s', id))
  {
    CallbackShape(s, r);
    if Claimable(s, r) {
      ClaimByKeeps(s, r, id);
    }
    hide CallbackStep, ClaimBy, Claimable, Find, Ids, UniqueIds, InflightSound;
  }

  lemma BeganIsNew(s: State, r: Request)
    ensures Answer(s, r).Began? ==>
      && r.id !in Ids(s.operations) && r.id !in s.inflight
      && !r.mode.CommitMode? && (r.mode.PrepareMode? ==> Deferred(r))
    ensures Answer(s, r).Callback? ==>
      Find(s.operations, r.id).Some? && Find(s.operations, r.id).value.dispatch.Prepare?
  {
  }

  lemma DispatchKeeps(s: State, r: Request, id: string)
    requires Sound(s)
    ensures var s' := DispatchStep(s, r);
      Sound(s') && (Budget(s, id) ==> Budget(s', id))
  {
    hide Ids, UniqueIds, RecordRight, ClaimRight, Answer;
    BeganIsNew(s, r);
  }

  predicate MovesPromise(e: Event) {
    e.Resumed? || e.EffectStarted? || e.EffectEnded? || e.Forgotten?
  }

  predicate MovesClaim(e: Event) {
    e.ClaimStarted? || e.ClaimEnded? || e.ClaimReleased? || e.ClosingSet? || e.Flushed?
  }

  /** The same request, and no new acceptance under way. */
  predicate MovesOn(before: Inflight, after: Inflight) {
    after.request == before.request && (after.phase.Accepting? ==> before.phase.Accepting?)
  }

  predicate AllMoveOn(before: map<string, Inflight>, after: map<string, Inflight>) {
    after.Keys <= before.Keys && forall at :: at in after ==> MovesOn(before[at], after[at])
  }

  lemma PromiseShape(s: State, e: Event, max: nat)
    requires MovesPromise(e)
    ensures var s' := Step(s, e, max);
      s' == s.(inflight := s'.inflight, effects := s'.effects) && AllMoveOn(s.inflight, s'.inflight)
  {
    hide AcceptStep, RecordStep, DispatchStep, CallbackStep, RestartStep, Bump;
  }

  lemma ClaimShape(s: State, e: Event, max: nat)
    requires MovesClaim(e)
    ensures var s' := Step(s, e, max);
      && s' == s.(claims := s'.claims, effects := s'.effects, closing := s'.closing, durable := s'.durable)
      && (s'.durable == s.durable || s'.durable == s.operations)
  {
    hide AcceptStep, RecordStep, DispatchStep, CallbackStep, RestartStep, Bump, Enter, InPhase;
    match e
    case ClaimStarted(at) =>
    case ClaimEnded(at) =>
    case ClaimReleased(at) =>
    case ClosingSet(closing) =>
    case Flushed(ok) =>
  }

  /** The steps that move a promise or a claim touch neither the log nor the callbacks. */
  lemma MoveShape(s: State, e: Event, max: nat)
    requires MovesPromise(e) || MovesClaim(e)
    ensures var s' := Step(s, e, max);
      && s'.operations == s.operations && s'.callbacks == s.callbacks && s'.stale == s.stale
      && s'.accepted == s.accepted && s'.evicted == s.evicted
      && (s'.durable == s.durable || s'.durable == s.operations)
      && AllMoveOn(s.inflight, s'.inflight)
  {
    hide Step;
    if MovesPromise(e) {
      PromiseShape(s, e, max);
    } else {
      ClaimShape(s, e, max);
    }
  }

  lemma MoveKeepsSound(s: State, e: Event, max: nat)
    requires Sound(s) && (MovesPromise(e) || MovesClaim(e))
    ensures Sound(Step(s, e, max))
  {
    MoveShape(s, e, max);
    hide Step, Ids, UniqueIds, Deferred;
  }

  lemma PromiseKeeps(s: State, e: Event, id: string, max: nat)
    requires Sound(s) && MovesPromise(e)
    ensures var s' := Step(s, e, max);
      Sound(s') && (Budget(s, id) ==> Budget(s', id))
  {
    hide AcceptStep, RecordStep, DispatchStep, CallbackStep, RestartStep;
    MoveKeepsSound(s, e, max);
    hide Sound, RecordRight, ClaimRight;
  }

  lemma ClaimKeeps(s: State, e: Event, id: string, max: nat)
    requires Sound(s) && MovesClaim(e)
    ensures var s' := Step(s, e, max);
      Sound(s') && (Budget(s, id) ==> Budget(s', id))
  {
    hide AcceptStep, RecordStep, DispatchStep, CallbackStep, RestartStep;
    MoveKeepsSound(s, e, max);
    hide Sound, Find, ExecuteRight;
  }

  lemma {:induction false} StepKeepsBudget(s: State, e: Event, id: string, max: nat)
    requires Sound(s) && max > 0 && Budget(s, id)
    ensures Sound(Step(s, e, max)) && Budget(Step(s, e, max), id)
  {
    hide Sound, Budget, DispatchStep, AcceptStep, RecordStep, CallbackStep, RestartStep;
    match e {
      case AcceptWritten(at, ok) => AcceptWrittenKeeps(s, at, ok, id, max);
      case CompleteWritten(at, response, ok) => CompleteWrittenKeeps(s, at, response, ok, id, max);
      case ClaimWritten(at, response, ok) => ClaimWrittenKeeps(s, at, response, ok, id, max);
      case Restarted(writeOk) => RestartKeeps(s, writeOk, id, max);
      case CallbackFired(r) => CallbackKeeps(s, r, id);
      case Dispatched(r) => DispatchKeeps(s, r, id);
      case _ =>
        if MovesPromise(e) {
          PromiseKeeps(s, e, id, max);
        } else {
          ClaimKeeps(s, e, id, max);
        }
    }
  }

  lemma BootIsSound(durable: Log, max: nat, id: string)
    requires UniqueIds(durable)
    ensures Sound(Boot(durable, max)) && Budget(Boot(durable, max), id)
  {
    InitializeKeeps(durable, max, id);
  }

  lemma {:induction false} RunKeepsBudget(durable: Log, events: seq<Event>, id: string, max: nat)
    requires UniqueIds(durable) && max > 0
    ensures var s := Run(Boot(durable, max), events, max);
      Sound(s) && Budget(s, id)
  {
    if events == [] {
      BootIsSound(durable, max, id);
    } else {
      hide Sound, Budget, Step;
      var before := events[..|events| - 1];
      RunKeepsBudget(durable, before, id, max);
      StepKeepsBudget(Run(Boot(durable, max), before, max), events[|events| - 1], id, max);
    }
  }

  /** In every interleaving an operation's effect starts at most once per acceptance, plus once
      per callback that claimed a record that was not prepared. */
  lemma {:induction false} EffectsWithinAcceptances(durable: Log, events: seq<Event>, id: string, max: nat)
    requires UniqueIds(durable) && max > 0
    ensures var s := Run(Boot(durable, max), events, max);
      Count(s.effects, id) <= Count(s.accepted, id) + Count(s.stale, id)
  {
    hide Run;
    RunKeepsBudget(durable, events, id, max);
  }

  // ----- Operations whose record was never evicted -----

  /** Until an operation was accepted nothing of it can run. */
  predicate NothingYet(accepted: nat, stale: nat, log: Log, id: string) {
    accepted == 0 ==>
      && stale == 0
      && (Find(log, id).Some? ==> !Find(log, id).value.response.Accepted?)
  }

  ghost predicate OnlyPrepared(callbacks: multiset<Request>, log: Log, id: string) {
    forall r :: r in callbacks && r.id == id ==> Find(log, id).Some? && Find(log, id).value.dispatch.Prepare?
  }

  /** The record is known to memory and file alike. */
  ghost predicate Stored(accepted: nat, log: Log, durable: Log, id: string) {
    && (id in Ids(log) <==> id in Ids(durable))
    && (accepted > 0 ==> id in Ids(log))
  }

  /** A retained operation was accepted at most once and only its prepared record has callbacks. */
  ghost predicate OnlyOnce(s: State, id: string) {
    && Count(s.accepted, id) + (if InPhase(s, id, Accepting) then 1 else 0) <= 1
    && Count(s.stale, id) == 0
    && OnlyPrepared(s.callbacks, s.operations, id)
    && Stored(Count(s.accepted, id), s.operations, s.durable, id)
  }

  ghost predicate Traced(s: State, id: string) {
    && Sound(s) && NothingYet(Count(s.accepted, id), Count(s.stale, id), s.operations, id)
    && (id !in s.evicted ==> OnlyOnce(s, id))
  }

  lemma OwnAcceptTraced(s: State, id: string, max: nat)
    requires Traced(s, id) && max > 0 && InPhase(s, id, Accepting)
    ensures Traced(AcceptStep(s, id, true, max), id)
  {
    AcceptWrittenKeeps(s, id, true, id, max);
    hide Accept, Ids, UniqueIds, Find;
    var record := NewRecord(s.inflight[id].request);
    AcceptKeeps(s.operations, record, max, id);
    hide Sound;
  }

  lemma OtherAcceptTraced(s: State, at: string, id: string, max: nat)
    requires Traced(s, id) && max > 0 && InPhase(s, at, Accepting) && id != at
    ensures Traced(AcceptStep(s, at, true, max), id)
  {
    hide Accept, Ids, UniqueIds, Find, Budget, Sound, Traced, NewRecord, Deferred;
    TracedIsSound(s, id);
    AcceptWrittenKeeps(s, at, true, id, max);
    OtherRecord(s, at, id, max);
    OtherAcceptOnce(s, at, id, max);
  }

  /** The acceptance of another operation keeps this record or evicts it. */
  lemma OtherRecord(s: State, at: string, id: string, max: nat)
    requires Sound(s) && max > 0 && InPhase(s, at, Accepting) && id != at
    ensures var log := AcceptStep(s, at, true, max).operations;
      (id in Ids(log) ==> id in Ids(s.operations) && Find(log, id) == Find(s.operations, id))
      && (id !in Ids(log) ==> Find(log, id).None?)
  {
    hide Accept, Ids, UniqueIds, Find, Deferred;
    AcceptKeeps(s.operations, NewRecord(s.inflight[at].request), max, id);
  }

  lemma OtherAcceptOnce(s: State, at: string, id: string, max: nat)
    requires Traced(s, id) && InPhase(s, at, Accepting) && id != at && Sound(AcceptStep(s, at, true, max))
    requires var log := AcceptStep(s, at, true, max).operations;
      (id in Ids(log) ==> id in Ids(s.operations) && Find(log, id) == Find(s.operations, id))
      && (id !in Ids(log) ==> Find(log, id).None?)
    ensures Traced(AcceptStep(s, at, true, max), id)
  {
    hide Accept, Ids, UniqueIds, Find, Sound, NewRecord;
  }

  lemma CompleteTraced(s: State, at: string, response: Response, ok: bool, id: string)
    requires Traced(s, id) && !response.Accepted?
    ensures Traced(RecordStep(s, at, response, ok), id)
  {
    RecordKeeps(s, at, response, ok, id);
    hide Complete, Ids, UniqueIds, Find;
    CompleteKeeps(s.operations, at, response);
    hide Sound;
  }

  lemma RestartTraced(s: State, writeOk: bool, id: string, max: nat)
    requires Traced(s, id)
    ensures Traced(RestartStep(s, writeOk, max), id)
  {
    hide Initialize, Ids, UniqueIds, Find;
    RestartKeeps(s, writeOk, id, max);
    InitializeKeeps(s.durable, max, id);
    hide Sound, InflightSound, Count;
    assert OnlyPrepared(multiset{}, RestartStep(s, writeOk, max).operations, id);
    hide OnlyPrepared;
  }

  lemma OnlyPreparedShrinks(callbacks: multiset<Request>, r: Request, log: Log, id: string)
    requires OnlyPrepared(callbacks, log, id)
    ensures OnlyPrepared(callbacks - multiset{r}, log, id)
  {
  }

  lemma PreparedIsPrepared(callbacks: multiset<Request>, r: Request, log: Log)
    requires OnlyPrepared(callbacks, log, r.id) && r in callbacks
    ensures Find(log, r.id).Some? && Find(log, r.id).value.dispatch.Prepare?
  {
  }

  lemma ClaimByTraced(s: State, r: Request, id: string)
    requires Traced(s, id) && Claimable(s, r)
    ensures Traced(ClaimBy(s, r), id)
  {
    hide Ids, UniqueIds, Find, InflightSound, Stored, OnlyPrepared;
    if id !in s.evicted && r.id == id {
      PreparedIsPrepared(s.callbacks, r, s.operations);
    }
  }

  lemma DroppedTraced(s: State, r: Request, id: string)
    requires Traced(s, id)
    ensures Traced(s.(callbacks := s.callbacks - multiset{r}), id)
  {
    hide Ids, UniqueIds, Find, InflightSound, Stored, OnlyPrepared;
    if id !in s.evicted {
      OnlyPreparedShrinks(s.callbacks, r, s.operations, id);
    }
  }

  lemma CallbackTraced(s: State, r: Request, id: string)
    requires Traced(s, id)
    ensures Traced(CallbackStep(s, r), id)
  {
    hide CallbackStep, Traced, ClaimBy, Claimable;
    CallbackShape(s, r);
    if Claimable(s, r) {
      ClaimByTraced(s, r, id);
      DroppedTraced(ClaimBy(s, r), r, id);
      SameCallbacks(s, r);
    }
    DroppedTraced(s, r, id);
  }

  lemma SameCallbacks(s: State, r: Request)
    requires Claimable(s, r)
    ensures ClaimBy(s, r).callbacks == s.callbacks
  {
  }

  lemma DispatchShape(s: State, r: Request)
    ensures var s' := DispatchStep(s, r);
      || s' == s
      || (Answer(s, r).Began? && s' == s.(inflight := s.inflight[r.id := Inflight(r, Accepting)]))
      || (Answer(s, r).Callback? && s' == s.(callbacks := s.callbacks + multiset{r}))
  {
    hide Answer;
  }

  lemma BeganTraced(s: State, r: Request, id: string)
    requires Traced(s, id) && r.id !in Ids(s.operations) && r.id !in s.inflight
    requires Sound(s.(inflight := s.inflight[r.id := Inflight(r, Accepting)]))
    ensures Traced(s.(inflight := s.inflight[r.id := Inflight(r, Accepting)]), id)
  {
    hide Ids, Find, Sound, NothingYet, OnlyPrepared, Count;
  }

  lemma ArmedTraced(s: State, r: Request, id: string)
    requires Traced(s, id) && Find(s.operations, r.id).Some? && Find(s.operations, r.id).value.dispatch.Prepare?
    requires Sound(s.(callbacks := s.callbacks + multiset{r}))
    ensures Traced(s.(callbacks := s.callbacks + multiset{r}), id)
  {
    hide Ids, Find, Sound, NothingYet, Stored, Count;
  }

  lemma DispatchTraced(s: State, r: Request, id: string)
    requires Traced(s, id)
    ensures Traced(DispatchStep(s, r), id)
  {
    hide Find, Ids, Answer, DispatchStep, Traced;
    TracedIsSound(s, id);
    DispatchKeeps(s, r, id);
    DispatchShape(s, r);
    BeganIsNew(s, r);
    if Answer(s, r).Began? {
      BeganTraced(s, r, id);
    } else if Answer(s, r).Callback? {
      ArmedTraced(s, r, id);
    }
  }

  lemma TracedIsSound(s: State, id: string)
    requires Traced(s, id)
    ensures Sound(s)
  {
  }

  lemma MoveTraced(s: State, e: Event, id: string, max: nat)
    requires Traced(s, id) && (MovesPromise(e) || MovesClaim(e))
    ensures Traced(Step(s, e, max), id)
  {
    MoveKeepsSound(s, e, max);
    MoveShape(s, e, max);
    hide Step, Ids, Find, Sound, OnlyPrepared, NothingYet;
  }

  lemma SettledTraced(s: State, at: string, phase: Phase, id: string)
    requires Traced(s, id) && at in s.inflight && !phase.Accepting?
    ensures Traced(Enter(s, at, phase), id)
  {
    hide Ids, UniqueIds, Find, OnlyPrepared, NothingYet;
  }

  lemma ClaimSetTraced(s: State, claims: map<string, Claim>, id: string)
    requires Traced(s, id)
    ensures Traced(s.(claims := claims), id)
  {
    hide Ids, UniqueIds, Find, OnlyPrepared, NothingYet;
  }

  lemma {:induction false} StepKeepsTraced(s: State, e: Event, id: string, max: nat)
    requires Traced(s, id) && max > 0
    ensures Traced(Step(s, e, max), id)
  {
    hide Traced, DispatchStep, RecordStep, CallbackStep, RestartStep;
    match e {
      case AcceptWritten(at, ok) =>
        if InPhase(s, at, Accepting) {
          if !ok {
            SettledTraced(s, at, Settled, id);
          } else {
            hide AcceptStep;
            if id == at {
              OwnAcceptTraced(s, id, max);
            } else {
              OtherAcceptTraced(s, at, id, max);
            }
          }
        }
      case CompleteWritten(at, response, ok) =>
        if InPhase(s, at, Recording) && !response.Accepted? {
          SettledTraced(s, at, Settled, id);
          CompleteTraced(Enter(s, at, Settled), at, response, ok, id);
        }
      case ClaimWritten(at, response, ok) =>
        if InClaim(s, at, Completing) && !response.Accepted? {
          ClaimSetTraced(s, s.claims[at := Done], id);
          CompleteTraced(s.(claims := s.claims[at := Done]), at, response, ok, id);
        }
      case Restarted(writeOk) => RestartTraced(s, writeOk, id, max);
      case CallbackFired(r) => CallbackTraced(s, r, id);
      case Dispatched(r) => DispatchTraced(s, r, id);
      case _ => MoveTraced(s, e, id, max);
    }
  }

  lemma BootIsTraced(durable: Log, id: string, max: nat)
    requires UniqueIds(durable)
    ensures Traced(Boot(durable, max), id)
  {
    BootIsSound(durable, max, id);
    hide Initialize, Ids, UniqueIds, Find;
    InitializeKeeps(durable, max, id);
    hide Sound;
  }

  lemma {:induction false} RunKeepsTraced(durable: Log, events: seq<Event>, id: string, max: nat)
    requires UniqueIds(durable) && max > 0
    ensures Traced(Run(Boot(durable, max), events, max), id)
  {
    if events == [] {
      BootIsTraced(durable, id, max);
    } else {
      hide Traced, Step;
      RunKeepsTraced(durable, events[..|events| - 1], id, max);
      StepKeepsTraced(Run(Boot(durable, max), events[..|events| - 1], max), events[|events| - 1], id, max);
    }
  }

  /** The design's promise: an operation whose record was never evicted runs at most once, through
      retries, commits, late callbacks, failed writes and restarts. */
  lemma {:induction false} RetainedRunsAtMostOnce(durable: Log, events: seq<Event>, id: string, max: nat)
    requires UniqueIds(durable) && max > 0
    requires id !in Run(Boot(durable, max), events, max).evicted
    ensures var s := Run(Boot(durable, max), events, max);
      Count(s.effects, id) <= Count(s.accepted, id) <= 1
  {
    hide Run, Sound;
    RunKeepsTraced(durable, events, id, max);
    EffectsWithinAcceptances(durable, events, id, max);
  }

  /** Nothing runs for an operation no acceptance of which was ever written. */
  lemma {:induction false} NothingRunsUnaccepted(durable: Log, events: seq<Event>, id: string, max: nat)
    requires UniqueIds(durable) && max > 0
    ensures var s := Run(Boot(durable, max), events, max);
      Count(s.accepted, id) == 0 ==> Count(s.effects, id) == 0
  {
    hide Run, Sound;
    RunKeepsTraced(durable, events, id, max);
    EffectsWithinAcceptances(durable, events, id, max);
  }

  /** A failed acceptance write changes neither log, starts nothing, and frees the id: the same
      request begins afresh. */
  lemma FailedAcceptanceFreesTheId(s: State, id: string, max: nat)
    requires Sound(s) && InPhase(s, id, Accepting) && !s.closing
    ensures var s' := Step(Step(s, AcceptWritten(id, false), max), Forgotten(id), max);
      && s' == s.(inflight := s.inflight - {id})
      && Answer(s', s.inflight[id].request) == Began
  {
    var s1 := Step(s, AcceptWritten(id, false), max);
    assert s.inflight[id := s1.inflight[id]] - {id} == s.inflight - {id};
  }

  // ----- A terminal response stays -----

  predicate Terminal(log: Log, id: string) {
    Find(log, id).Some? && !Find(log, id).value.response.Accepted?
  }

  /** Once recorded as finished, an operation is never shown as accepted again while its record is
      retained, across steps of any kind, restarts included. */
  lemma AcceptStays(s: State, at: string, id: string, max: nat)
    requires Traced(s, id) && max > 0 && Terminal(s.operations, id) && InPhase(s, at, Accepting)
    requires id !in AcceptStep(s, at, true, max).evicted
    ensures Terminal(AcceptStep(s, at, true, max).operations, id)
  {
    hide Accept, Find, Ids, UniqueIds, OnlyOnce, NothingYet;
    AcceptKeeps(s.operations, NewRecord(s.inflight[at].request), max, id);
  }

  lemma RecordStays(s: State, at: string, response: Response, ok: bool, id: string)
    requires Terminal(s.operations, id) && !response.Accepted?
    ensures Terminal(RecordStep(s, at, response, ok).operations, id)
  {
    hide Complete, Find, Ids;
    CompleteKeeps(s.operations, at, response);
  }

  lemma RestartStays(s: State, writeOk: bool, id: string, max: nat)
    requires Traced(s, id) && Terminal(s.operations, id) && id !in RestartStep(s, writeOk, max).evicted
    ensures Terminal(RestartStep(s, writeOk, max).operations, id)
  {
    RestartGrowsEvicted(s, writeOk, max);
    hide Initialize, Find, Ids, UniqueIds, OnlyPrepared, NothingYet, InflightSound;
    InitializeKeeps(s.durable, max, id);
  }

  lemma RestartGrowsEvicted(s: State, writeOk: bool, max: nat)
    ensures s.evicted <= RestartStep(s, writeOk, max).evicted
  {
    hide Initialize, Ids;
  }

  /** Once recorded as finished, an operation is never shown as accepted again while its record is
      retained, across steps of any kind, restarts included. */
  lemma {:induction false} TerminalStepStays(s: State, e: Event, id: string, max: nat)
    requires Traced(s, id) && max > 0 && Terminal(s.operations, id)
    requires id !in Step(s, e, max).evicted
    ensures Terminal(Step(s, e, max).operations, id)
  {
    hide Terminal, Traced, RecordStep, CallbackStep, RestartStep, DispatchStep;
    match e {
      case AcceptWritten(at, ok) =>
        if InPhase(s, at, Accepting) && ok {
          AcceptStays(s, at, id, max);
        }
      case CompleteWritten(at, response, ok) =>
        if InPhase(s, at, Recording) && !response.Accepted? {
          RecordStays(Enter(s, at, Settled), at, response, ok, id);
        }
      case ClaimWritten(at, response, ok) =>
        if InClaim(s, at, Completing) && !response.Accepted? {
          RecordStays(s.(claims := s.claims[at := Done]), at, response, ok, id);
        }
      case Restarted(writeOk) => RestartStays(s, writeOk, id, max);
      case CallbackFired(r) => CallbackShape(s, r);
      case Dispatched(r) => DispatchShape(s, r);
      case _ => MoveShape(s, e, max);
    }
  }

  lemma {:induction false} TerminalStays(s: State, events: seq<Event>, id: string, max: nat)
    requires Traced(s, id) && max > 0 && Terminal(s.operations, id)
    requires id !in Run(s, events, max).evicted
    ensures Traced(Run(s, events, max), id) && Terminal(Run(s, events, max).operations, id)
  {
    if events != [] {
      hide Traced, Step, Terminal;
      var before := events[..|events| - 1];
      EvictedGrows(Run(s, before, max), events[|events| - 1], max);
      TerminalStays(s, before, id, max);
      StepKeepsTraced(Run(s, before, max), events[|events| - 1], id, max);
      TerminalStepStays(Run(s, before, max), events[|events| - 1], id, max);
    }
  }

  lemma EvictedGrows(s: State, e: Event, max: nat)
    ensures s.evicted <= Step(s, e, max).evicted
  {
    hide Accept, Initialize, Complete, Answer, Ids;
  }
}
