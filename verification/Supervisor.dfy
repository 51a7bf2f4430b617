// The operation protocol of the local-control supervisor (src/local-control/supervisor.ts) as a
// transition system: every synchronous stretch between two awaits is one step, and pending
// promises may settle in any order.
module Supervisor {
  import opened StateStore

  datatype Target = Service(code: string) | Excubitor

  datatype Mode = ExecuteMode | PrepareMode | CommitMode

  datatype Request = Request(id: string, target: Target, action: Action, mode: Mode)

  function TargetKey(target: Target): string {
    match target
    case Service(code) => "service:" + code
    case Excubitor => "excubitor"
  }

  predicate Deferred(r: Request) {
    r.target.Excubitor? && (r.action.RestartAction? || r.action.Stop?)
  }

  /** Where an accepted dispatch stands: its promise is `inflight` until it was `Settled`. */
  datatype Phase = Accepting | Admitted | Queued | Running | Recording | Settled

  datatype Inflight = Inflight(request: Request, phase: Phase)

  /** Where a claimed reply callback stands. */
  datatype Claim = Waiting | Executing | Completing | Done

  /** `accepted`, `effects` and `stale` count, per operation id, the committed acceptances, the
      started effects, and the callbacks that claimed a record that was not prepared.
      `evicted` holds the ids whose record was dropped. */
  datatype State = State(
    operations: Log,
    durable: Log,
    inflight: map<string, Inflight>,
    claims: map<string, Claim>,
    callbacks: multiset<Request>,
    closing: bool,
    accepted: map<string, nat>,
    effects: map<string, nat>,
    stale: map<string, nat>,
    evicted: set<string>)

  datatype Reply = Refused(code: string) | Replayed(response: Response) | Joined | Began | Callback(response: Response)

  datatype Event =
    | Dispatched(request: Request)
    | AcceptWritten(id: string, ok: bool)
    | Resumed(id: string)
    | EffectStarted(id: string)
    | EffectEnded(id: string)
    | CompleteWritten(id: string, response: Response, ok: bool)
    | Forgotten(id: string)
    | CallbackFired(request: Request)
    | ClaimStarted(id: string)
    | ClaimEnded(id: string)
    | ClaimWritten(id: string, response: Response, ok: bool)
    | ClaimReleased(id: string)
    | ClosingSet(closing: bool)
    | Flushed(ok: bool)
    | Restarted(writeOk: bool)

  function Count(m: map<string, nat>, id: string): nat {
    if id in m then m[id] else 0
  }

  function Bump(m: map<string, nat>, id: string): map<string, nat> {
    m[id := Count(m, id) + 1]
  }

  function NewRecord(r: Request): Record {
    Record(r.id, TargetKey(r.target), r.action, if r.mode.PrepareMode? then Prepare else Execute, Accepted)
  }

  predicate Matches(record: Record, r: Request) {
    record == NewRecord(r).(response := record.response)
  }

  predicate SameOperation(pending: Request, r: Request) {
    TargetKey(pending.target) == TargetKey(r.target) && pending.action == r.action && pending.mode == r.mode
  }

  /** What a request is answered with, or what it starts. */
  function Answer(s: State, r: Request): Reply {
    if s.closing then Refused("SUPERVISOR_CLOSING")
    else if r.mode.CommitMode? then
      if !Deferred(r) then Refused("COMMIT_NOT_SUPPORTED")
      else match Find(s.operations, r.id)
        case None => Refused("OPERATION_NOT_PREPARED")
        case Some(record) =>
          if record.target != TargetKey(r.target) || record.action != r.action then Refused("OPERATION_ID_CONFLICT")
          else if !record.dispatch.Prepare? then Refused("OPERATION_NOT_PREPARED")
          else if !record.response.Accepted? then Replayed(record.response)
          else Callback(record.response)
    else if r.mode.PrepareMode? && !Deferred(r) then Refused("PREPARE_NOT_SUPPORTED")
    else match Find(s.operations, r.id)
      case Some(record) =>
        if Matches(record, r) then Replayed(record.response) else Refused("OPERATION_ID_CONFLICT")
      case None =>
        if r.id !in s.inflight then Began
        else if SameOperation(s.inflight[r.id].request, r) then Joined
        else Refused("OPERATION_ID_CONFLICT")
  }

  function DispatchStep(s: State, r: Request): State {
    match Answer(s, r)
    case Began => s.(inflight := s.inflight[r.id := Inflight(r, Accepting)])
    case Callback(_) => s.(callbacks := s.callbacks + multiset{r})
    case _ => s
  }

  predicate InPhase(s: State, id: string, phase: Phase) {
    id in s.inflight && s.inflight[id].phase == phase
  }

  predicate InClaim(s: State, id: string, claim: Claim) {
    id in s.claims && s.claims[id] == claim
  }

  function Enter(s: State, id: string, phase: Phase): State
    requires id in s.inflight
  {
    s.(inflight := s.inflight[id := s.inflight[id].(phase := phase)])
  }

  function AcceptStep(s: State, id: string, ok: bool, max: nat): State {
    if !InPhase(s, id, Accepting) then s
    else if !ok then Enter(s, id, Settled)
    else
      var log := Accept(s.operations, NewRecord(s.inflight[id].request), max);
      Enter(s, id, Admitted).(
        operations := log, durable := log,
        accepted := Bump(s.accepted, id),
        evicted := s.evicted + (Ids(s.operations) - Ids(log)))
  }

  /** Records a terminal response; a failed write leaves it visible in memory only. */
  function RecordStep(s: State, id: string, response: Response, ok: bool): State {
    var log := Complete(s.operations, id, response);
    s.(operations := log, durable := if ok && id in Ids(s.operations) then log else s.durable)
  }

  /** The synchronous head of a reply callback: claim the operation, or do nothing. */
  function CallbackStep(s: State, r: Request): State {
    if r !in s.callbacks then s
    else
      var s := s.(callbacks := s.callbacks - multiset{r});
      var current := Find(s.operations, r.id);
      if s.closing || r.id in s.claims || current.None? || !current.value.response.Accepted? then s
      else s.(
        claims := s.claims[r.id := Waiting],
        stale := if current.value.dispatch.Prepare? then s.stale else Bump(s.stale, r.id))
  }

  function RestartStep(s: State, writeOk: bool, max: nat): State {
    var log := Initialize(s.durable, max);
    s.(operations := log, durable := if writeOk then log else s.durable,
       inflight := map[], claims := map[], callbacks := multiset{}, closing := false,
       evicted := s.evicted + (Ids(s.durable) - Ids(log)))
  }

  function Step(s: State, e: Event, max: nat): State {
    match e
    case Dispatched(r) => DispatchStep(s, r)
    case AcceptWritten(id, ok) => AcceptStep(s, id, ok, max)
    case Resumed(id) =>
      if !InPhase(s, id, Admitted) then s
      else Enter(s, id, if s.inflight[id].request.mode.PrepareMode? then Settled else Queued)
    case EffectStarted(id) =>
      if InPhase(s, id, Queued) then Enter(s, id, Running).(effects := Bump(s.effects, id)) else s
    case EffectEnded(id) => if InPhase(s, id, Running) then Enter(s, id, Recording) else s
    case CompleteWritten(id, response, ok) =>
      if InPhase(s, id, Recording) && !response.Accepted?
      then RecordStep(Enter(s, id, Settled), id, response, ok) else s
    case Forgotten(id) => if InPhase(s, id, Settled) then s.(inflight := s.inflight - {id}) else s
    case CallbackFired(r) => CallbackStep(s, r)
    case ClaimStarted(id) =>
      if !InClaim(s, id, Waiting) then s
      else if s.closing then s.(claims := s.claims[id := Done])
      else s.(claims := s.claims[id := Executing], effects := Bump(s.effects, id))
    case ClaimEnded(id) => if InClaim(s, id, Executing) then s.(claims := s.claims[id := Completing]) else s
    case ClaimWritten(id, response, ok) =>
      if InClaim(s, id, Completing) && !response.Accepted?
      then RecordStep(s.(claims := s.claims[id := Done]), id, response, ok) else s
    case ClaimReleased(id) => if InClaim(s, id, Done) then s.(claims := s.claims - {id}) else s
    case ClosingSet(closing) => s.(closing := closing)
    case Flushed(ok) => if ok then s.(durable := s.operations) else s
    case Restarted(writeOk) => RestartStep(s, writeOk, max)
  }

  function Run(s: State, events: seq<Event>, max: nat): State {
    if events == [] then s
    else Step(Run(s, events[..|events| - 1], max), events[|events| - 1], max)
  }

  /** The supervisor just after its first start on a state file holding `durable`. */
  function Boot(durable: Log, max: nat): State {
    State(Initialize(durable, max), durable, map[], map[], multiset{}, false, map[], map[], map[],
          Ids(durable) - Ids(Initialize(durable, max)))
  }
}
