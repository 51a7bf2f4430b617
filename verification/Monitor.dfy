// The intrusion latch and its containment and reporting workflow (src/intrusion/monitor.ts). One
// synchronous stretch is one step; saves, deliveries and containment fail as they like.
module Monitor {
  import opened Wrappers

  /** `pending`, `failed` and `confirmed`. */
  datatype Containment = Open | Unconfirmed | Confirmed

  datatype Identity = Identity(id: nat, site: string, service: string, at: int, reason: string)

  /** `sent` and `notified` are the `notification` and `notifiedContainment` fields. */
  datatype Incident = Incident(identity: Identity, containment: Containment, sent: bool, notified: Option<Containment>,
                               persistenceFailed: bool)

  /** The await a reconciliation stands at; `second` after containment was tried. */
  datatype Point = Notifying(second: bool) | Containing

  /** `work` is the promise field; `clearing` reconciliations ended but have not reset it. `delivered`
      holds, oldest first, the containment of each successful delivery of this run. */
  datatype State = State(
    incident: Option<Incident>,
    saved: Option<Incident>,
    work: bool,
    stopping: bool,
    running: seq<Point>,
    clearing: nat,
    delivered: seq<Containment>)

  datatype Event =
    | Inspected(identity: Identity, suspicious: bool, saveOk: bool, again: bool)
    | Responded(identity: Identity, suspicious: bool, evidenceOk: bool, saveOk: bool, again: bool)
    | Ticked(saveOk: bool)
    | Delivered(job: nat, ok: bool, saveOk: bool)
    | Contained(job: nat, ok: bool, saveOk: bool)
    | Cleared
    | Stopped

  function Boot(loaded: Option<Incident>): State {
    State(loaded, loaded, false, false, [], 0, [])
  }

  /** Saves the incident; a failure is only noted on it. */
  function Persist(s: State, ok: bool): State {
    if s.incident.None? then s
    else if ok then s.(incident := Some(s.incident.value.(persistenceFailed := false)),
                       saved := Some(s.incident.value.(persistenceFailed := false)))
    else s.(incident := Some(s.incident.value.(persistenceFailed := true)))
  }

  predicate Reported(i: Incident) {
    i.sent && i.notified == Some(i.containment)
  }

  function Remove<T>(s: seq<T>, k: nat): seq<T>
    requires k < |s|
  {
    s[..k] + s[k + 1..]
  }

  /** From the second notification on: deliver, or end. */
  function NotifyAgain(s: State): State
    requires s.incident.Some?
  {
    if Reported(s.incident.value) then s.(clearing := s.clearing + 1) else s.(running := s.running + [Notifying(true)])
  }

  function TryContain(s: State): State
    requires s.incident.Some?
  {
    if s.incident.value.containment.Confirmed? then NotifyAgain(s) else s.(running := s.running + [Containing])
  }

  /** The head of `reconcile`, up to its first wait. */
  function Reconcile(s: State, saveOk: bool): State
    requires s.incident.Some?
  {
    var s := Persist(s, saveOk);
    if Reported(s.incident.value) then TryContain(s) else s.(running := s.running + [Notifying(false)])
  }

  function Schedule(s: State, saveOk: bool): State {
    if s.work || s.stopping || s.incident.None? then s else Reconcile(s.(work := true), saveOk)
  }

  function Trip(s: State, identity: Identity, saveOk: bool, again: bool): State {
    if s.incident.Some? then s
    else Schedule(Persist(s.(incident := Some(Incident(identity, Open, false, None, false))), saveOk), again)
  }

  /** Whether the request may pass. */
  function Allows(s: State, suspicious: bool): bool {
    !s.stopping && s.incident.None? && !suspicious
  }

  function Inspect(s: State, identity: Identity, suspicious: bool, saveOk: bool, again: bool): State {
    if s.stopping || s.incident.Some? || !suspicious then s else Trip(s, identity, saveOk, again)
  }

  function Respond(s: State, identity: Identity, suspicious: bool, evidenceOk: bool, saveOk: bool,
                   again: bool): State {
    if s.incident.Some? || (evidenceOk && !suspicious) then s else Trip(s, identity, saveOk, again)
  }

  function Sent(i: Incident, ok: bool): Incident {
    if ok then i.(sent := true, notified := Some(i.containment)) else i.(sent := false)
  }

  function OnDelivered(s: State, job: nat, ok: bool, saveOk: bool): State {
    if job >= |s.running| || !s.running[job].Notifying? || s.incident.None? then s
    else
      var i := s.incident.value;
      var second := s.running[job].second;
      var s := s.(running := Remove(s.running, job),
                  incident := Some(Sent(i, ok)),
                  delivered := if ok then s.delivered + [i.containment] else s.delivered);
      var s := Persist(s, saveOk);
      if second then s.(clearing := s.clearing + 1) else TryContain(s)
  }

  function OnContained(s: State, job: nat, ok: bool, saveOk: bool): State {
    if job >= |s.running| || !s.running[job].Containing? || s.incident.None? then s
    else
      var s := s.(running := Remove(s.running, job),
                  incident := Some(s.incident.value.(containment := if ok then Confirmed else Unconfirmed)));
      NotifyAgain(Persist(s, saveOk))
  }

  function Step(s: State, e: Event): State {
    match e
    case Inspected(identity, suspicious, saveOk, again) => Inspect(s, identity, suspicious, saveOk, again)
    case Responded(identity, suspicious, evidenceOk, saveOk, again) =>
      Respond(s, identity, suspicious, evidenceOk, saveOk, again)
    case Ticked(saveOk) => Schedule(s, saveOk)
    case Delivered(job, ok, saveOk) => OnDelivered(s, job, ok, saveOk)
    case Contained(job, ok, saveOk) => OnContained(s, job, ok, saveOk)
    case Cleared => if s.clearing > 0 then s.(clearing := s.clearing - 1, work := false) else s
    case Stopped => s.(stopping := true)
  }

  function Run(s: State, events: seq<Event>): State {
    if events == [] then s else Step(Run(s, events[..|events| - 1]), events[|events| - 1])
  }

  // ----- The implementation -----

  class IntrusionMonitor {
    var incident: Option<Incident>
    var work: bool
    var stopping: bool
    ghost var saved: Option<Incident>
    var running: seq<Point>
    var clearing: nat
    ghost var delivered: seq<Containment>

    ghost function View(): State
      reads this
    {
      State(incident, saved, work, stopping, running, clearing, delivered)
    }

    /** One reconciliation at a time, and one delivery per containment. */
    ghost predicate Valid()
      reads this
    {
      Inv(View())
    }

    constructor (loaded: Option<Incident>)
      ensures Valid() && View() == Boot(loaded)
    {
      incident, work, stopping := loaded, false, false;
      saved, running, clearing, delivered := loaded, [], 0, [];
    }

    /** A request passes only while there is no incident, before it and after it; a suspicious one never
        passes, and a blocked one changes nothing. */
    method InspectRequest(identity: Identity, suspicious: bool, saveOk: bool, again: bool) returns (allowed: bool)
      requires Valid()
      modifies this
      ensures Valid() && allowed == Allows(old(View()), suspicious)
      ensures View() == Step(old(View()), Inspected(identity, suspicious, saveOk, again))
      ensures allowed ==> old(incident).None? && incident.None? && !suspicious
      ensures suspicious && !stopping ==> incident.Some?
      ensures old(incident).Some? ==> View() == old(View())
    {
      hide Reconcile, Persist, Inv;
      StepKeeps(View(), Inspected(identity, suspicious, saveOk, again));
      if stopping || incident.Some? {
        return false;
      }
      if suspicious {
        TripLatch(identity, saveOk, again);
      }
      allowed := incident.None?;
    }

    /** A suspicious response latches, and so does one whose evidence is lost. */
    method ResponseSeen(identity: Identity, suspicious: bool, evidenceOk: bool, saveOk: bool, again: bool)
      requires Valid()
      modifies this
      ensures Valid() && View() == Step(old(View()), Responded(identity, suspicious, evidenceOk, saveOk, again))
      ensures suspicious || !evidenceOk ==> incident.Some?
      ensures old(incident).Some? || (!suspicious && evidenceOk) ==> View() == old(View())
    {
      hide Reconcile, Persist, Inv;
      StepKeeps(View(), Responded(identity, suspicious, evidenceOk, saveOk, again));
      if incident.Some? {
        return;
      }
      if !evidenceOk {
        TripLatch(identity, saveOk, again);
        return;
      }
      if suspicious {
        TripLatch(identity, saveOk, again);
      }
    }

    /** The first trip sets the incident, whether it can be saved or not; a later one changes nothing. It
        delivers nothing itself, and starts the one reconciliation unless the monitor is stopping. */
    method TripLatch(identity: Identity, saveOk: bool, again: bool)
      requires Valid()
      modifies this
      ensures Valid() && View() == Trip(old(View()), identity, saveOk, again)
      ensures old(incident).Some? ==> View() == old(View())
      ensures old(incident).None?
          ==> incident.Some? && incident.value.identity == identity && incident.value.containment.Open?
      ensures incident.Some? && delivered == old(delivered) && |running| <= 1
      ensures old(incident).None? && !stopping ==> work
    {
      hide Reconcile, Persist, Inv;
      TripKeeps(View(), identity, saveOk, again);
      TripLatches(View(), identity, saveOk, again);
      OneRunning(Trip(View(), identity, saveOk, again));
      if incident.Some? {
        return;
      }
      incident := Some(Incident(identity, Open, false, None, false));
      PersistIncident(saveOk);
      StartWork(again);
    }

    method PersistIncident(ok: bool)
      modifies this`incident, this`saved
      ensures View() == Persist(old(View()), ok) && (old(incident).Some? ==> incident.Some?)
    {
      if incident.None? {
        return;
      }
      if ok {
        saved := Some(incident.value.(persistenceFailed := false));
        incident := Some(incident.value.(persistenceFailed := false));
      } else {
        incident := Some(incident.value.(persistenceFailed := true));
      }
    }

    /** A timer tick starts a reconciliation unless one is at work. */
    method ScheduleWork(saveOk: bool)
      requires Valid()
      modifies this
      ensures Valid() && View() == Step(old(View()), Ticked(saveOk))
      ensures |running| <= 1 && delivered == old(delivered)
      ensures old(work) ==> View() == old(View())
      ensures incident.Some? && !stopping ==> work
    {
      hide Reconcile, Inv;
      StepKeeps(View(), Ticked(saveOk));
      ScheduleStartsOne(View(), saveOk);
      OneRunning(Schedule(View(), saveOk));
      StartWork(saveOk);
    }

    method StartWork(saveOk: bool)
      modifies this
      ensures View() == Schedule(old(View()), saveOk) && (old(incident).Some? ==> incident.Some?)
    {
      if work || stopping || incident.None? {
        return;
      }
      work := true;
      PersistIncident(saveOk);
      if !(incident.value.sent && incident.value.notified == Some(incident.value.containment)) {
        running := running + [Notifying(false)];
        return;
      }
      ContainIncident();
    }

    method ContainIncident()
      requires incident.Some?
      modifies this`running, this`clearing
      ensures View() == TryContain(old(View()))
    {
      if !incident.value.containment.Confirmed? {
        running := running + [Containing];
        return;
      }
      EndOrNotify();
    }

    method EndOrNotify()
      requires incident.Some?
      modifies this`running, this`clearing
      ensures View() == NotifyAgain(old(View()))
    {
      if incident.value.sent && incident.value.notified == Some(incident.value.containment) {
        clearing := clearing + 1;
      } else {
        running := running + [Notifying(true)];
      }
    }

    /** A delivery that succeeded is recorded once, for the containment it reported; one that failed is
        due again. Neither touches the containment. */
    method NotifyEnded(job: nat, ok: bool, saveOk: bool)
      requires Valid() && job < |running| && running[job].Notifying?
      modifies this
      ensures Valid() && View() == Step(old(View()), Delivered(job, ok, saveOk))
      ensures old(incident).Some? && incident.Some?
      ensures incident.value.identity == old(incident).value.identity
          && incident.value.containment == old(incident).value.containment
      ensures ok ==> delivered == old(delivered) + [incident.value.containment]
      ensures ok ==> incident.value.containment !in old(delivered)
      ensures ok ==> Reported(incident.value)
      ensures !ok ==> delivered == old(delivered) && !incident.value.sent
    {
      hide Persist, TryContain, Inv;
      StepKeeps(View(), Delivered(job, ok, saveOk));
      NotifyingIsNew(View(), job);
      DeliveryMeans(View(), job, ok, saveOk);
      var i := incident.value;
      var second := running[job].second;
      running := Remove(running, job);
      if ok {
        incident := Some(i.(sent := true, notified := Some(i.containment)));
        delivered := delivered + [i.containment];
      } else {
        incident := Some(i.(sent := false));
      }
      PersistIncident(saveOk);
      if second {
        clearing := clearing + 1;
      } else {
        ContainIncident();
      }
    }

    /** Containment is confirmed exactly if the remote call succeeded, and is then never tried again. */
    method ContainEnded(job: nat, ok: bool, saveOk: bool)
      requires Valid() && job < |running| && running[job].Containing?
      modifies this
      ensures Valid() && View() == Step(old(View()), Contained(job, ok, saveOk))
      ensures old(incident).Some? && incident.Some? && !old(incident).value.containment.Confirmed?
      ensures incident.value.identity == old(incident).value.identity && (incident.value.containment.Confirmed? <==> ok)
      ensures delivered == old(delivered)
    {
      hide Persist, NotifyAgain, Inv;
      StepKeeps(View(), Contained(job, ok, saveOk));
      ContainingIsOpen(View(), job);
      ContainmentMeans(View(), job, ok, saveOk);
      running := Remove(running, job);
      if ok {
        incident := Some(incident.value.(containment := Confirmed));
      } else {
        incident := Some(incident.value.(containment := Unconfirmed));
      }
      PersistIncident(saveOk);
      EndOrNotify();
    }

    /** The end of a reconciliation: nothing is in flight, so that a tick may start the next one. */
    method ClearWork()
      requires Valid() && clearing > 0
      modifies this`clearing, this`work
      ensures Valid() && View() == Step(old(View()), Cleared)
      ensures !work && running == [] && clearing == 0
    {
      hide Inv;
      StepKeeps(View(), Cleared);
      ClearingIsLast(View());
      clearing, work := clearing - 1, false;
    }

    method Stop()
      requires Valid()
      modifies this`stopping
      ensures Valid() && View() == Step(old(View()), Stopped)
    {
      hide Inv;
      StepKeeps(View(), Stopped);
      stopping := true;
    }
  }

  // ----- What the clauses above rest on -----

  lemma OneRunning(s: State)
    requires Inv(s)
    ensures |s.running| <= 1
  {
  }

  lemma ClearingIsLast(s: State)
    requires Inv(s) && s.clearing > 0
    ensures s.running == [] && s.clearing == 1
  {
  }

  lemma TripLatches(s: State, identity: Identity, saveOk: bool, again: bool)
    ensures var s' := Trip(s, identity, saveOk, again);
      && s'.delivered == s.delivered && s'.stopping == s.stopping && s'.incident.Some?
      && (s.incident.Some? ==> s' == s)
      && (s.incident.None? ==> s'.incident.value.identity == identity && s'.incident.value.containment.Open?
                               && (!s.stopping ==> s'.work))
  {
  }

  lemma ScheduleStartsOne(s: State, saveOk: bool)
    ensures var s' := Schedule(s, saveOk);
      && s'.delivered == s.delivered && s'.stopping == s.stopping && s'.incident.Some? == s.incident.Some?
      && (s.work ==> s' == s) && (s.incident.Some? && !s.stopping ==> s'.work)
  {
  }

  lemma NotifyingIsNew(s: State, job: nat)
    requires Inv(s) && job < |s.running| && s.running[job].Notifying?
    ensures s.incident.Some? && s.incident.value.containment !in s.delivered
  {
    var i := s.incident.value;
    forall k | 0 <= k < |s.delivered| ensures s.delivered[k] != i.containment {
      assert k < |s.delivered| - 1 ==> Rank(s.delivered[k]) < Rank(s.delivered[|s.delivered| - 1]);
    }
  }

  lemma ContainingIsOpen(s: State, job: nat)
    requires Inv(s) && job < |s.running| && s.running[job].Containing?
    ensures s.incident.Some? && !s.incident.value.containment.Confirmed?
  {
  }

  lemma DeliveryMeans(s: State, job: nat, ok: bool, saveOk: bool)
    requires job < |s.running| && s.running[job].Notifying? && s.incident.Some?
    ensures var i, s' := s.incident.value, OnDelivered(s, job, ok, saveOk);
      && s'.incident.Some? && s'.incident.value.identity == i.identity && s'.incident.value.containment == i.containment
      && (ok ==> s'.delivered == s.delivered + [i.containment] && Reported(s'.incident.value))
      && (!ok ==> s'.delivered == s.delivered && !s'.incident.value.sent)
  {
    hide Remove;
  }

  lemma ContainmentMeans(s: State, job: nat, ok: bool, saveOk: bool)
    requires job < |s.running| && s.running[job].Containing? && s.incident.Some?
    ensures var i, s' := s.incident.value, OnContained(s, job, ok, saveOk);
      && s'.incident.Some? && s'.incident.value.identity == i.identity && s'.delivered == s.delivered
      && (s'.incident.value.containment.Confirmed? <==> ok)
  {
    hide Remove;
  }

  // ----- Invariant -----

  function Rank(c: Containment): nat {
    match c
    case Open => 0
    case Unconfirmed => 1
    case Confirmed => 2
  }

  predicate Climbing(delivered: seq<Containment>) {
    forall i, j :: 0 <= i < j < |delivered| ==> Rank(delivered[i]) < Rank(delivered[j])
  }

  /** Deliveries follow the containment upwards; the last one is remembered while it is current. */
  predicate DeliveredSound(delivered: seq<Containment>, incident: Option<Incident>) {
    && Climbing(delivered)
    && (delivered != [] ==>
         var last := delivered[|delivered| - 1];
         && incident.Some? && Rank(last) <= Rank(incident.value.containment)
         && (last == incident.value.containment ==> Reported(incident.value)))
  }

  /** One reconciliation at a time: `work` is set from its start until it has reset it, and it
      delivers only what was not reported, and contains only what is not confirmed. */
  predicate WorkSound(s: State) {
    && |s.running| + s.clearing == (if s.work then 1 else 0)
    && (s.running != [] ==> s.incident.Some?)
    && forall k :: 0 <= k < |s.running| ==>
         if s.running[k].Notifying? then !Reported(s.incident.value) else !s.incident.value.containment.Confirmed?
  }

  predicate Inv(s: State) {
    DeliveredSound(s.delivered, s.incident) && WorkSound(s)
  }

  lemma TripKeeps(s: State, identity: Identity, saveOk: bool, again: bool)
    requires Inv(s)
    ensures Inv(Trip(s, identity, saveOk, again))
  {
  }

  lemma ScheduleKeeps(s: State, saveOk: bool)
    requires Inv(s)
    ensures Inv(Schedule(s, saveOk))
  {
  }

  lemma DeliveredKeeps(s: State, job: nat, ok: bool, saveOk: bool)
    requires Inv(s)
    ensures Inv(OnDelivered(s, job, ok, saveOk))
  {
    if job < |s.running| && s.running[job].Notifying? {
      hide *;
      OnlyJob(s, job);
      DeliverSound(s.delivered, s.incident.value, ok);
      AfterPersist(Handed(s, ok), saveOk);
      EndKeeps(Persist(Handed(s, ok), saveOk));
      DeliveredIs(s, job, ok, saveOk);
    }
  }

  /** The state right after the delivery of the only reconciliation. */
  function Handed(s: State, ok: bool): State
    requires s.incident.Some?
  {
    var i := s.incident.value;
    s.(running := [], incident := Some(Sent(i, ok)),
      delivered := if ok then s.delivered + [i.containment] else s.delivered)
  }

  lemma OnlyJob(s: State, job: nat)
    requires Inv(s) && job < |s.running| && s.running[job].Notifying?
    ensures s.incident.Some? && !Reported(s.incident.value) && DeliveredSound(s.delivered, s.incident)
    ensures Remove(s.running, job) == []
    ensures forall ok: bool {:trigger Handed(s, ok)} ::
      DeliveredSound(Handed(s, ok).delivered, Handed(s, ok).incident) ==> Between(Handed(s, ok))
  {
    hide DeliveredSound;
  }

  lemma DeliveredIs(s: State, job: nat, ok: bool, saveOk: bool)
    requires job < |s.running| && s.running[job].Notifying? && s.incident.Some? && Remove(s.running, job) == []
    requires Persist(Handed(s, ok), saveOk).incident.Some?
    ensures var s' := Persist(Handed(s, ok), saveOk);
      OnDelivered(s, job, ok, saveOk)
        == if s.running[job].second then s'.(clearing := s'.clearing + 1) else TryContain(s')
  {
    hide TryContain, Persist;
  }

  lemma DeliverSound(delivered: seq<Containment>, i: Incident, ok: bool)
    requires DeliveredSound(delivered, Some(i)) && !Reported(i)
    ensures DeliveredSound(if ok then delivered + [i.containment] else delivered, Some(Sent(i, ok)))
  {
    hide Climbing;
    if ok {
      ClimbSnoc(delivered, i.containment);
    }
  }

  lemma ClimbSnoc(delivered: seq<Containment>, c: Containment)
    requires Climbing(delivered) && (delivered != [] ==> Rank(delivered[|delivered| - 1]) < Rank(c))
    ensures Climbing(delivered + [c])
  {
  }

  /** Between two waits of a reconciliation. */
  predicate Between(s: State) {
    s.running == [] && s.clearing == 0 && s.work && s.incident.Some? && DeliveredSound(s.delivered, s.incident)
  }

  lemma AfterPersist(s: State, ok: bool)
    requires Between(s)
    ensures Between(Persist(s, ok))
  {
    hide Climbing;
  }

  lemma EndKeeps(s: State)
    requires Between(s)
    ensures Inv(s.(clearing := s.clearing + 1)) && Inv(NotifyAgain(s)) && Inv(TryContain(s))
  {
    hide Climbing;
  }

  lemma ContainedKeeps(s: State, job: nat, ok: bool, saveOk: bool)
    requires Inv(s)
    ensures Inv(OnContained(s, job, ok, saveOk))
  {
    if job < |s.running| && s.running[job].Containing? {
      hide *;
      var i := OnlyContainment(s, job, ok);
      AfterPersist(s.(running := [], incident := Some(i)), saveOk);
      EndKeeps(Persist(s.(running := [], incident := Some(i)), saveOk));
      ContainedIs(s, job, ok, saveOk);
    }
  }

  lemma OnlyContainment(s: State, job: nat, ok: bool) returns (i: Incident)
    requires Inv(s) && job < |s.running| && s.running[job].Containing?
    ensures s.incident.Some? && i == s.incident.value.(containment := if ok then Confirmed else Unconfirmed)
    ensures Remove(s.running, job) == [] && Between(s.(running := [], incident := Some(i)))
  {
    hide Climbing;
    i := s.incident.value.(containment := if ok then Confirmed else Unconfirmed);
  }

  lemma ContainedIs(s: State, job: nat, ok: bool, saveOk: bool)
    requires job < |s.running| && s.running[job].Containing? && s.incident.Some? && Remove(s.running, job) == []
    requires var i := s.incident.value.(containment := if ok then Confirmed else Unconfirmed);
      Persist(s.(running := [], incident := Some(i)), saveOk).incident.Some?
    ensures var i := s.incident.value.(containment := if ok then Confirmed else Unconfirmed);
      OnContained(s, job, ok, saveOk) == NotifyAgain(Persist(s.(running := [], incident := Some(i)), saveOk))
  {
    hide NotifyAgain, Persist;
  }

  lemma {:induction false} StepKeeps(s: State, e: Event)
    requires Inv(s)
    ensures Inv(Step(s, e))
  {
    hide Inv, Trip, Schedule, OnDelivered, OnContained;
    match e
    case Inspected(identity, _, saveOk, again) => TripKeeps(s, identity, saveOk, again);
    case Responded(identity, _, _, saveOk, again) => TripKeeps(s, identity, saveOk, again);
    case Ticked(saveOk) => ScheduleKeeps(s, saveOk);
    case Delivered(job, ok, saveOk) => DeliveredKeeps(s, job, ok, saveOk);
    case Contained(job, ok, saveOk) => ContainedKeeps(s, job, ok, saveOk);
    case Cleared => ClearedKeeps(s);
    case Stopped => ClearedKeeps(s);
  }

  lemma ClearedKeeps(s: State)
    requires Inv(s)
    ensures s.clearing > 0 ==> Inv(s.(clearing := s.clearing - 1, work := false))
    ensures Inv(s.(stopping := true))
  {
  }

  lemma {:induction false} RunKeeps(loaded: Option<Incident>, events: seq<Event>)
    ensures Inv(Run(Boot(loaded), events))
  {
    if events != [] {
      hide Inv, Step;
      RunKeeps(loaded, events[..|events| - 1]);
      StepKeeps(Run(Boot(loaded), events[..|events| - 1]), events[|events| - 1]);
    } else {
      assert Inv(Boot(loaded));
    }
  }

  // ----- Theorems over every run -----

  /** At most one reconciliation is in flight, and at most three deliveries succeed in one run: one
      for each containment, in the order in which containment can progress. */
  lemma {:induction false} OneReportPerContainment(loaded: Option<Incident>, events: seq<Event>)
    ensures var s := Run(Boot(loaded), events); |s.running| <= 1 && Climbing(s.delivered) && |s.delivered| <= 3
  {
    RunKeeps(loaded, events);
    ClimbsToThree(Run(Boot(loaded), events).delivered);
  }

  lemma {:induction false} ClimbsToThree(delivered: seq<Containment>)
    requires Climbing(delivered)
    ensures |delivered| <= 3 && (delivered != [] ==> |delivered| <= Rank(delivered[|delivered| - 1]) + 1)
    decreases |delivered|
  {
    if |delivered| > 1 {
      var front := delivered[..|delivered| - 1];
      ClimbsToThree(front);
      assert Rank(front[|front| - 1]) < Rank(delivered[|front|]);
    }
  }

  /** The incident of an armed or blocked monitor after any events. */
  ghost predicate Latched(before: Incident, after: State) {
    && after.incident.Some? && after.incident.value.identity == before.identity
    && (before.containment.Confirmed? ==> after.incident.value.containment.Confirmed?)
    && Rank(before.containment) <= Rank(after.incident.value.containment)
  }

  lemma LatchStep(s: State, e: Event)
    requires Inv(s) && s.incident.Some?
    ensures Latched(s.incident.value, Step(s, e))
  {
    hide Climbing, DeliveredSound;
    match e
    case Ticked(_) =>
    case Delivered(_, _, _) => LatchDelivered(s, e);
    case Contained(_, _, _) =>
    case _ =>
  }

  lemma LatchDelivered(s: State, e: Event)
    requires s.incident.Some? && e.Delivered?
    ensures Latched(s.incident.value, Step(s, e))
  {
    hide Remove;
  }

  /** Once tripped, nothing passes for the rest of the run, the incident keeps its identity, and a
      confirmed containment stays confirmed, whatever fails. */
  lemma {:induction false} LatchHolds(s: State, events: seq<Event>)
    requires Inv(s) && s.incident.Some?
    ensures var s' := Run(s, events);
      Inv(s') && Latched(s.incident.value, s') && forall suspicious :: !Allows(s', suspicious)
  {
    if events != [] {
      hide Inv, Step;
      LatchHolds(s, events[..|events| - 1]);
      var mid := Run(s, events[..|events| - 1]);
      StepKeeps(mid, events[|events| - 1]);
      LatchStep(mid, events[|events| - 1]);
    }
  }

  /** An event that must trip the latch of a monitor that is not stopping. */
  predicate Alarms(e: Event) {
    match e
    case Inspected(_, suspicious, _, _) => suspicious
    case Responded(_, suspicious, evidenceOk, _, _) => suspicious || !evidenceOk
    case _ => false
  }

  predicate Disturbs(e: Event) {
    e.Stopped? || Alarms(e)
  }

  lemma DisturbedStays(s: State, e: Event)
    ensures var s' := Step(s, e);
      (s'.incident.Some? || s'.stopping) <==> (s.incident.Some? || s.stopping || Disturbs(e))
  {
    match e
    case Inspected(identity, _, saveOk, again) => TripLatches(s, identity, saveOk, again);
    case Responded(identity, _, _, saveOk, again) => TripLatches(s, identity, saveOk, again);
    case Ticked(saveOk) => ScheduleStartsOne(s, saveOk);
    case _ =>
  }

  predicate Undisturbed(events: seq<Event>) {
    forall i :: 0 <= i < |events| ==> !Disturbs(events[i])
  }

  lemma UndisturbedSnoc(events: seq<Event>)
    requires events != []
    ensures Undisturbed(events) <==> Undisturbed(events[..|events| - 1]) && !Disturbs(events[|events| - 1])
  {
    hide Disturbs;
    var front := events[..|events| - 1];
    assert forall i :: 0 <= i < |front| ==> front[i] == events[i];
  }

  lemma {:induction false} OpenIffUndisturbed(loaded: Option<Incident>, events: seq<Event>)
    ensures var s := Run(Boot(loaded), events);
      s.incident.None? && !s.stopping <==> loaded.None? && Undisturbed(events)
  {
    if events != [] {
      hide Step, Disturbs, Undisturbed;
      OpenIffUndisturbed(loaded, events[..|events| - 1]);
      DisturbedStays(Run(Boot(loaded), events[..|events| - 1]), events[|events| - 1]);
      UndisturbedSnoc(events);
    }
  }

  /** A request that is not suspicious passes if and only if no incident was loaded, the monitor was not
      stopped, and nothing alarming was ever seen, whatever was saved, delivered or contained. */
  lemma {:induction false} PassesIffNothingHappened(loaded: Option<Incident>, events: seq<Event>)
    ensures Allows(Run(Boot(loaded), events), false) <==> loaded.None? && Undisturbed(events)
  {
    hide Run, Undisturbed;
    OpenIffUndisturbed(loaded, events);
  }
}
