// The mutable supervisor object of src/local-control/supervisor.ts. Every synchronous stretch performs
// the step of the model and keeps the bound on effects; the other clauses say what it means for a caller.
module LocalControl {
  import opened Wrappers
  import opened StateStore
  import opened Supervisor
  import opened SupervisorSafety
  import opened SupervisorReplies

  class LocalControlSupervisor {
    const store: OperationStore
    var inflight: map<string, Inflight>
    var claims: map<string, Claim>
    var callbacks: multiset<Request>
    var closing: bool
    ghost var accepted: map<string, nat>
    ghost var effects: map<string, nat>
    ghost var stale: map<string, nat>
    ghost var evicted: set<string>

    ghost function View(): State
      reads this, store
    {
      State(store.operations, store.durable, inflight, claims, callbacks, closing, accepted, effects, stale, evicted)
    }

    /** No operation ran more often than it was accepted, counting the callbacks that claimed a record
        that was not prepared, and what may still run is within that bound too. */
    ghost predicate Valid()
      reads this, store
    {
      store.maxOperations > 0 && Sound(View()) && forall id :: Budget(View(), id)
    }

    constructor (maxOperations: nat, durable: Log, writeOk: bool)
      requires maxOperations > 0 && UniqueIds(durable)
      ensures fresh(store) && store.maxOperations == maxOperations && Valid()
      ensures View() == Boot(durable, maxOperations).(
        durable := if writeOk then Initialize(durable, maxOperations) else durable)
      ensures forall record :: record in store.operations ==> !record.response.Accepted?
    {
      store := new OperationStore(maxOperations, durable);
      inflight, claims, callbacks, closing := map[], map[], multiset{}, false;
      accepted, effects, stale := map[], map[], map[];
      evicted := Ids(durable) - Ids(Initialize(durable, maxOperations));
      new;
      store.Boot(writeOk);
      BootWithinBudget(durable, maxOperations, writeOk);
      InitializeKeeps(durable, maxOperations, "");
    }

    method GetOperation(id: string) returns (record: Option<Record>)
      ensures record == Find(store.operations, id)
    {
      var k := store.FindIndex(id);
      record := if k < |store.operations| then Some(store.operations[k]) else None;
    }

    // ----- Requests -----

    /** A reply never runs anything. An admissible request is replayed, joined or begun, in this order, by
        what its id already stands for, and conflicts if and only if that is a different request. Only a
        commit arms a callback, and only on a prepared operation that was not answered. */
    method Dispatch(r: Request) returns (reply: Reply)
      requires Valid()
      modifies this
      ensures Valid() && reply == Answer(old(View()), r) && View() == DispatchStep(old(View()), r)
      ensures effects == old(effects) && accepted == old(accepted) && claims == old(claims)
      ensures Admissible(old(View()), r) ==> RepliesFully(old(View()), r, reply)
      ensures reply.Replayed? ==> AnsweredBy(store.operations, r, reply.response)
      ensures reply.Joined? ==> r.id in inflight && SameOperation(inflight[r.id].request, r)
      ensures reply.Began?
          ==> r.id !in Ids(store.operations) && r.id !in old(inflight) && InPhase(View(), r.id, Accepting)
      ensures !reply.Began? ==> inflight == old(inflight)
      ensures reply.Callback?
          ==> CommitsPrepared(store.operations, closing, r) && callbacks == old(callbacks) + multiset{r}
      ensures !reply.Callback? ==> callbacks == old(callbacks)
    {
      hide Sound, Budget, Answer, DispatchStep, AnsweredBy, CommitsPrepared, SameOperation, Ids, RepliesFully;
      AnswerMeans(View(), r);
      if Admissible(View(), r) {
        AdmissibleIsAnswered(View(), r);
      }
      StepWithinBudget(View(), Dispatched(r), store.maxOperations);
      reply := Decide(r);
    }

    method Decide(r: Request) returns (reply: Reply)
      modifies this
      ensures reply == Answer(old(View()), r) && View() == DispatchStep(old(View()), r)
    {
      if closing {
        return Refused("SUPERVISOR_CLOSING");
      }
      if r.mode.CommitMode? {
        reply := CommitDeferred(r);
        return;
      }
      if r.mode.PrepareMode? && !Deferred(r) {
        return Refused("PREPARE_NOT_SUPPORTED");
      }
      var persisted := GetOperation(r.id);
      if persisted.Some? {
        if !Matches(persisted.value, r) {
          return Refused("OPERATION_ID_CONFLICT");
        }
        return Replayed(persisted.value.response);
      }
      if r.id in inflight {
        if !SameOperation(inflight[r.id].request, r) {
          return Refused("OPERATION_ID_CONFLICT");
        }
        return Joined;
      }
      inflight := inflight[r.id := Inflight(r, Accepting)];
      reply := Began;
    }

    /** A commit changes nothing but the callbacks, and these only for a prepared operation of the same
        target and action whose response is still `accepted`. */
    method CommitDeferred(r: Request) returns (reply: Reply)
      requires r.mode.CommitMode? && !closing
      modifies this`callbacks
      ensures reply == Answer(old(View()), r) && View() == DispatchStep(old(View()), r)
      ensures reply.Callback? <==> CommitsPrepared(store.operations, closing, r)
      ensures callbacks == if reply.Callback? then old(callbacks) + multiset{r} else old(callbacks)
      ensures reply.Replayed? ==> Terminal(store.operations, r.id)
    {
      if !Deferred(r) {
        return Refused("COMMIT_NOT_SUPPORTED");
      }
      var persisted := GetOperation(r.id);
      if persisted.None? {
        return Refused("OPERATION_NOT_PREPARED");
      }
      var record := persisted.value;
      if record.target != TargetKey(r.target) || record.action != r.action {
        return Refused("OPERATION_ID_CONFLICT");
      }
      if !record.dispatch.Prepare? {
        return Refused("OPERATION_NOT_PREPARED");
      }
      if !record.response.Accepted? {
        return Replayed(record.response);
      }
      callbacks := callbacks + multiset{r};
      reply := Callback(record.response);
    }

    // ----- An accepted operation -----

    /** An acceptance counts, and is in the log, exactly if its write succeeded; nothing runs yet. */
    method OnAcceptWritten(id: string, ok: bool)
      requires Valid() && InPhase(View(), id, Accepting)
      modifies this, store
      ensures Valid() && View() == AcceptStep(old(View()), id, ok, store.maxOperations)
      ensures effects == old(effects)
      ensures ok ==> Find(store.operations, id) == Some(NewRecord(old(inflight)[id].request))
      ensures ok ==> store.durable == store.operations
      ensures ok ==> Count(accepted, id) == Count(old(accepted), id) + 1
      ensures !ok ==> store.operations == old(store.operations) && store.durable == old(store.durable)
      ensures !ok ==> accepted == old(accepted)
    {
      hide Budget, UniqueIds;
      StepWithinBudget(View(), AcceptWritten(id, ok), store.maxOperations);
      var entry := inflight[id];
      AcceptedIsFound(View(), id, store.maxOperations);
      ghost var before := store.operations;
      store.RecordAccepted(NewRecord(entry.request), ok);
      if ok {
        accepted := Bump(accepted, id);
        evicted := evicted + (Ids(before) - Ids(store.operations));
        inflight := inflight[id := entry.(phase := Admitted)];
      } else {
        inflight := inflight[id := entry.(phase := Settled)];
      }
    }

    /** A prepared operation is done and will not run by itself; any other one queues. */
    method Resume(id: string)
      requires Valid() && InPhase(View(), id, Admitted)
      modifies this`inflight
      ensures Valid() && View() == Step(old(View()), Resumed(id), store.maxOperations)
      ensures ExecuteRight(inflight, id) == if old(inflight)[id].request.mode.PrepareMode? then 0 else 1
    {
      hide Sound, Budget;
      StepWithinBudget(View(), Resumed(id), store.maxOperations);
      var entry := inflight[id];
      var next := Queued;
      if entry.request.mode.PrepareMode? {
        next := Settled;
      }
      inflight := inflight[id := entry.(phase := next)];
    }

    /** The queued operation runs; its right to do so is used up. */
    method StartEffect(id: string)
      requires Valid() && InPhase(View(), id, Queued)
      modifies this`inflight, this`effects
      ensures Valid() && View() == Step(old(View()), EffectStarted(id), store.maxOperations)
      ensures Count(effects, id) == Count(old(effects), id) + 1 && ExecuteRight(inflight, id) == 0
    {
      hide Sound, Budget;
      StepWithinBudget(View(), EffectStarted(id), store.maxOperations);
      effects := Bump(effects, id);
      inflight := inflight[id := inflight[id].(phase := Running)];
    }

    method EndEffect(id: string)
      requires Valid() && InPhase(View(), id, Running)
      modifies this`inflight
      ensures Valid() && View() == Step(old(View()), EffectEnded(id), store.maxOperations)
    {
      hide Sound, Budget;
      StepWithinBudget(View(), EffectEnded(id), store.maxOperations);
      inflight := inflight[id := inflight[id].(phase := Recording)];
    }

    /** A record that is still there is terminal from now on, whether the write succeeded or not. */
    method OnCompleteWritten(id: string, response: Response, ok: bool)
      requires Valid() && InPhase(View(), id, Recording) && !response.Accepted?
      modifies this, store
      ensures Valid() && View() == Step(old(View()), CompleteWritten(id, response, ok), store.maxOperations)
      ensures Ids(store.operations) == Ids(old(store.operations))
      ensures id in Ids(store.operations) ==> Terminal(store.operations, id)
      ensures forall other :: other != id ==> Find(store.operations, other) == Find(old(store.operations), other)
      ensures effects == old(effects) && accepted == old(accepted) && claims == old(claims)
    {
      hide Sound, Budget, Find, Ids;
      StepWithinBudget(View(), CompleteWritten(id, response, ok), store.maxOperations);
      CompleteKeeps(store.operations, id, response);
      var _ := store.RecordCompleted(id, response, ok);
      inflight := inflight[id := inflight[id].(phase := Settled)];
    }

    method Forget(id: string)
      requires Valid() && InPhase(View(), id, Settled)
      modifies this`inflight
      ensures Valid() && View() == Step(old(View()), Forgotten(id), store.maxOperations)
      ensures id !in inflight
    {
      hide Sound, Budget;
      StepWithinBudget(View(), Forgotten(id), store.maxOperations);
      inflight := inflight - {id};
    }

    // ----- Reply callbacks -----

    /** A reply callback runs nothing. It claims an operation only while nobody else holds the claim and
        its record is still `accepted`; of any number of callbacks only one can. */
    method FireCallback(r: Request)
      requires Valid() && r in callbacks
      modifies this
      ensures Valid() && View() == CallbackStep(old(View()), r)
      ensures effects == old(effects) && callbacks == old(callbacks) - multiset{r}
      ensures claims != old(claims) ==> !closing && r.id !in old(claims) && claims == old(claims)[r.id := Waiting]
      ensures claims != old(claims) ==> r.id in Ids(store.operations) && !Terminal(store.operations, r.id)
    {
      hide Sound, Budget, Find, Ids, Terminal, Count, Bump, DispatchStep, AcceptStep, RecordStep, RestartStep;
      StepWithinBudget(View(), CallbackFired(r), store.maxOperations);
      callbacks := callbacks - multiset{r};
      if closing || r.id in claims {
        return;
      }
      var current := GetOperation(r.id);
      if current.None? || !current.value.response.Accepted? {
        return;
      }
      NotYetTerminal(store.operations, r.id);
      claims := claims[r.id := Waiting];
      if !current.value.dispatch.Prepare? {
        stale := Bump(stale, r.id);
      }
    }

    /** A claimed operation runs once, unless the supervisor is closing; the right is used up. */
    method StartClaim(id: string)
      requires Valid() && InClaim(View(), id, Waiting)
      modifies this`claims, this`effects
      ensures Valid() && View() == Step(old(View()), ClaimStarted(id), store.maxOperations)
      ensures Count(effects, id) == Count(old(effects), id) + (if closing then 0 else 1) && ClaimRight(claims, id) == 0
    {
      hide Sound, Budget;
      StepWithinBudget(View(), ClaimStarted(id), store.maxOperations);
      if closing {
        claims := claims[id := Done];
      } else {
        claims := claims[id := Executing];
        effects := Bump(effects, id);
      }
    }

    method EndClaim(id: string)
      requires Valid() && InClaim(View(), id, Executing)
      modifies this`claims
      ensures Valid() && View() == Step(old(View()), ClaimEnded(id), store.maxOperations)
    {
      hide Sound, Budget;
      StepWithinBudget(View(), ClaimEnded(id), store.maxOperations);
      claims := claims[id := Completing];
    }

    /** The record of a claimed operation is terminal before the claim is released, so that no later
        callback can claim it again. */
    method OnClaimWritten(id: string, response: Response, ok: bool)
      requires Valid() && InClaim(View(), id, Completing) && !response.Accepted?
      modifies this, store
      ensures Valid() && View() == Step(old(View()), ClaimWritten(id, response, ok), store.maxOperations)
      ensures Ids(store.operations) == Ids(old(store.operations))
      ensures id in Ids(store.operations) ==> Terminal(store.operations, id)
      ensures forall other :: other != id ==> Find(store.operations, other) == Find(old(store.operations), other)
      ensures effects == old(effects) && accepted == old(accepted) && inflight == old(inflight)
    {
      hide Sound, Budget, Find, Ids;
      StepWithinBudget(View(), ClaimWritten(id, response, ok), store.maxOperations);
      CompleteKeeps(store.operations, id, response);
      var _ := store.RecordCompleted(id, response, ok);
      claims := claims[id := Done];
    }

    method ReleaseClaim(id: string)
      requires Valid() && InClaim(View(), id, Done)
      modifies this`claims
      ensures Valid() && View() == Step(old(View()), ClaimReleased(id), store.maxOperations)
      ensures id !in claims
    {
      hide Sound, Budget;
      StepWithinBudget(View(), ClaimReleased(id), store.maxOperations);
      claims := claims - {id};
    }

    /** A written backend status makes every recorded response durable; it changes none. */
    method RecordExcubitor(ok: bool)
      requires Valid()
      modifies store`durable
      ensures Valid() && View() == Step(old(View()), Flushed(ok), store.maxOperations)
      ensures store.durable == if ok then store.operations else old(store.durable)
      ensures effects == old(effects) && accepted == old(accepted) && inflight == old(inflight)
    {
      hide Sound, Budget;
      StepWithinBudget(View(), Flushed(ok), store.maxOperations);
      store.RecordExcubitor(ok);
    }

    method SetClosing(closing: bool)
      requires Valid()
      modifies this`closing
      ensures Valid() && View() == Step(old(View()), ClosingSet(closing), store.maxOperations)
    {
      hide Sound, Budget;
      StepWithinBudget(View(), ClosingSet(closing), store.maxOperations);
      this.closing := closing;
    }
  }

  // ----- What the clauses above mean -----

  predicate SameTargetAndAction(record: Record, r: Request) {
    record.id == r.id && record.target == TargetKey(r.target) && record.action == r.action
  }

  /** The log holds this response for the same operation; unless it is a commit, dispatched alike. */
  predicate AnsweredBy(log: Log, r: Request, response: Response) {
    && r.id in Ids(log)
    && var record := Find(log, r.id).value;
       && SameTargetAndAction(record, r) && record.response == response
       && (!r.mode.CommitMode? ==> Matches(record, r))
  }

  /** The request commits an operation that was prepared for the same target and action and has no
      terminal response. */
  predicate CommitsPrepared(log: Log, closing: bool, r: Request) {
    && r.mode.CommitMode? && Deferred(r) && !closing && r.id in Ids(log)
    && var record := Find(log, r.id).value;
       SameTargetAndAction(record, r) && record.dispatch.Prepare? && record.response.Accepted?
  }

  lemma AnswerMeans(s: State, r: Request)
    ensures var reply, s' := Answer(s, r), DispatchStep(s, r);
      && s' == s.(inflight := s'.inflight, callbacks := s'.callbacks)
      && (reply.Replayed? ==> AnsweredBy(s.operations, r, reply.response))
      && (reply.Joined? ==> r.id in s.inflight && SameOperation(s.inflight[r.id].request, r))
      && (reply.Began? ==> r.id !in Ids(s.operations) && r.id !in s.inflight && InPhase(s', r.id, Accepting))
      && (!reply.Began? ==> s'.inflight == s.inflight)
      && (reply.Callback? ==> CommitsPrepared(s.operations, s.closing, r) && s'.callbacks == s.callbacks + multiset{r})
      && (!reply.Callback? ==> s'.callbacks == s.callbacks)
  {
  }

  lemma StepWithinBudget(s: State, e: Event, max: nat)
    requires Sound(s) && max > 0 && forall id :: Budget(s, id)
    ensures Sound(Step(s, e, max)) && forall id :: Budget(Step(s, e, max), id)
  {
    hide Sound, Budget, Step;
    StepKeepsBudget(s, e, "", max);
    forall id ensures Budget(Step(s, e, max), id) {
      StepKeepsBudget(s, e, id, max);
    }
  }

  lemma BootWithinBudget(durable: Log, max: nat, writeOk: bool)
    requires UniqueIds(durable)
    ensures var s := Boot(durable, max).(durable := if writeOk then Initialize(durable, max) else durable);
      Sound(s) && forall id :: Budget(s, id)
  {
    hide Initialize, Ids, UniqueIds, Find;
    InitializeKeeps(durable, max, "");
    BootIsSound(durable, max, "");
    var s := Boot(durable, max).(durable := if writeOk then Initialize(durable, max) else durable);
    forall id ensures Budget(s, id) {
      BootIsSound(durable, max, id);
    }
  }

  lemma NotYetTerminal(log: Log, id: string)
    requires Find(log, id).Some? && Find(log, id).value.response.Accepted?
    ensures id in Ids(log) && !Terminal(log, id)
  {
  }

  lemma AcceptedIsFound(s: State, id: string, max: nat)
    requires Sound(s) && InPhase(s, id, Accepting) && max > 0
    ensures Find(Accept(s.operations, NewRecord(s.inflight[id].request), max), id)
        == Some(NewRecord(s.inflight[id].request))
  {
    hide Accept, Find, Ids, UniqueIds;
    AcceptKeeps(s.operations, NewRecord(s.inflight[id].request), max, id);
  }
}
