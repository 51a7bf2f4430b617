// What an incident leads to: it is saved, reported, contained and reported again; what failed is tried
// again by the next reconciliation, and a restart stays blocked.
module MonitorProgress {
  import opened Wrappers
  import opened Monitor

  /** No reconciliation is under way, and one may start. */
  predicate AtRest(s: State) {
    !s.work && !s.stopping && s.running == [] && s.clearing == 0
  }

  lemma RunOn(s: State, events: seq<Event>, e: Event)
    ensures Run(s, events + [e]) == Step(Run(s, events), e) && Run(s, []) == s
  {
    hide Step;
    assert (events + [e])[..|events|] == events;
  }

  lemma Run5(s: State, a: Event, b: Event, c: Event, d: Event, e: Event)
    ensures Run(s, [a, b, c, d, e]) == Step(Step(Step(Step(Step(s, a), b), c), d), e)
  {
    hide Step, Run;
    RunOn(s, [], a);
    RunOn(s, [] + [a], b);
    RunOn(s, [] + [a] + [b], c);
    RunOn(s, [] + [a] + [b] + [c], d);
    RunOn(s, [] + [a] + [b] + [c] + [d], e);
    assert [] + [a] + [b] + [c] + [d] + [e] == [a, b, c, d, e];
  }

  // ----- One reconciliation -----

  /** The reconciliation waits for its first delivery. */
  predicate Reporting(s: State, i: Incident) {
    && s.incident == Some(i) && s.work && !s.stopping && s.running == [Notifying(false)] && s.clearing == 0
  }

  lemma StartsReporting(s: State, saveOk: bool)
    requires AtRest(s) && s.incident.Some? && !Reported(s.incident.value)
    ensures var s' := Step(s, Ticked(saveOk));
      Reporting(s', s.incident.value.(persistenceFailed := !saveOk)) && s'.delivered == s.delivered
  {
  }

  /** A delivery that ends leads to containment, unless that is confirmed. */
  lemma ThenContains(s: State, i: Incident, ok: bool, saveOk: bool)
    requires Reporting(s, i) && !i.containment.Confirmed?
    ensures var s' := Step(s, Delivered(0, ok, saveOk));
      && s' == s.(incident := s'.incident, saved := s'.saved, running := [Containing], delivered := s'.delivered)
      && s'.delivered == s.delivered + (if ok then [i.containment] else [])
      && s'.incident == Some(Sent(i, ok).(persistenceFailed := !saveOk))
  {
    assert Remove(s.running, 0) == [];
    assert s.delivered + [] == s.delivered;
  }

  /** Containment that ends leads to a report of its outcome. */
  lemma ThenReportsAgain(s: State, i: Incident, ok: bool, saveOk: bool)
    requires s.incident == Some(i) && s.running == [Containing] && !i.containment.Confirmed?
    requires i.notified.Some? ==> i.notified.value == i.containment
    requires i.sent ==> i.notified.Some?
    requires ok || i.containment.Open? || !i.sent
    ensures var s' := Step(s, Contained(0, ok, saveOk));
      && s' == s.(incident := s'.incident, saved := s'.saved, running := [Notifying(true)])
      && s'.incident == Some(i.(containment := if ok then Confirmed else Unconfirmed, persistenceFailed := !saveOk))
  {
    assert Remove(s.running, 0) == [];
  }

  lemma ThenEnds(s: State, i: Incident, ok: bool, saveOk: bool)
    requires s.incident == Some(i) && s.running == [Notifying(true)] && !s.stopping && s.clearing == 0
    ensures var s' := Step(Step(s, Delivered(0, ok, saveOk)), Cleared);
      && AtRest(s') && s'.delivered == s.delivered + (if ok then [i.containment] else [])
      && s'.incident == Some(Sent(i, ok).(persistenceFailed := !saveOk))
  {
    assert Remove(s.running, 0) == [];
    assert s.delivered + [] == s.delivered;
  }

  /** An incident that was never reported: after a reconciliation in which everything succeeds it was
      reported as open, contained, reported as contained, and saved so. */
  lemma ReportedAndContained(s: State)
    requires AtRest(s) && s.incident.Some?
    requires var i := s.incident.value; i.containment.Open? && !i.sent && i.notified.None?
    ensures var s' := Run(s, [Ticked(true), Delivered(0, true, true), Contained(0, true, true),
                              Delivered(0, true, true), Cleared]);
      && AtRest(s') && s'.delivered == s.delivered + [Open, Confirmed]
      && s'.incident == Some(Incident(s.incident.value.identity, Confirmed, true, Some(Confirmed), false))
      && s'.saved == s'.incident
  {
    hide Step, Run;
    var i := s.incident.value;
    Run5(s, Ticked(true), Delivered(0, true, true), Contained(0, true, true), Delivered(0, true, true), Cleared);
    StartsReporting(s, true);
    var s1 := Step(s, Ticked(true));
    var i1 := i.(persistenceFailed := false);
    ThenContains(s1, i1, true, true);
    var s2 := Step(s1, Delivered(0, true, true));
    var i2 := Sent(i1, true);
    ThenReportsAgain(s2, i2, true, true);
    var s3 := Step(s2, Contained(0, true, true));
    ThenEnds(s3, i2.(containment := Confirmed), true, true);
    SavesAtEnd(s3);
    assert s.delivered + [Open] + [Confirmed] == s.delivered + [Open, Confirmed];
  }

  lemma SavesAtEnd(s: State)
    requires s.incident.Some? && s.running == [Notifying(true)]
    ensures var s' := Step(Step(s, Delivered(0, true, true)), Cleared); s'.saved == s'.incident
  {
  }

  /** A reconciliation in which everything fails ends too, with the incident still to be reported and
      contained, so that the next one tries both again. */
  lemma FailedIsTriedAgain(s: State, saveOk: bool)
    requires AtRest(s) && s.incident.Some?
    requires var i := s.incident.value; !i.containment.Confirmed? && !i.sent && i.notified.None?
    ensures var s' := Run(s, [Ticked(saveOk), Delivered(0, false, saveOk), Contained(0, false, saveOk),
                              Delivered(0, false, saveOk), Cleared]);
      && AtRest(s') && s'.delivered == s.delivered
      && s'.incident == Some(Incident(s.incident.value.identity, Unconfirmed, false, None, !saveOk))
  {
    hide Step, Run;
    var i := s.incident.value;
    Run5(s, Ticked(saveOk), Delivered(0, false, saveOk), Contained(0, false, saveOk), Delivered(0, false, saveOk),
         Cleared);
    StartsReporting(s, saveOk);
    var s1 := Step(s, Ticked(saveOk));
    var i1 := i.(persistenceFailed := !saveOk);
    ThenContains(s1, i1, false, saveOk);
    var s2 := Step(s1, Delivered(0, false, saveOk));
    ThenReportsAgain(s2, i1, false, saveOk);
    var s3 := Step(s2, Contained(0, false, saveOk));
    ThenEnds(s3, i1.(containment := Unconfirmed), false, saveOk);
    assert s.delivered + [] + [] == s.delivered;
  }

  /** A suspicious request latches and starts the first reconciliation at once. */
  lemma AlarmStartsReporting(s: State, identity: Identity, saveOk: bool, again: bool)
    requires AtRest(s) && s.incident.None?
    ensures Reporting(Step(s, Inspected(identity, true, saveOk, again)), Incident(identity, Open, false, None, !again))
    ensures !Allows(Step(s, Inspected(identity, true, saveOk, again)), false)
  {
  }

  // ----- What is saved -----

  /** The saved incident is the current one, unless the last save failed; it is never forgotten. */
  predicate Kept(s: State) {
    && (s.incident.Some? && !s.incident.value.persistenceFailed ==> s.saved == s.incident)
    && (s.incident.None? ==> s.saved.None?)
  }

  lemma StepKept(s: State, e: Event)
    requires Kept(s)
    ensures Kept(Step(s, e)) && (s.saved.Some? ==> Step(s, e).saved.Some?)
  {
    hide Remove, Reported;
  }

  /** After any run the saved incident is the current one unless the last save failed. */
  lemma {:induction false} RunKept(loaded: Option<Incident>, events: seq<Event>)
    ensures Kept(Run(Boot(loaded), events))
    ensures loaded.Some? ==> Run(Boot(loaded), events).saved.Some?
  {
    if events != [] {
      hide Step, Kept;
      RunKept(loaded, events[..|events| - 1]);
      StepKept(Run(Boot(loaded), events[..|events| - 1]), events[|events| - 1]);
    }
  }

  /** A monitor that starts on what an incident left behind lets nothing through, unless no save of it
      succeeded. */
  lemma {:induction false} RestartStaysBlocked(loaded: Option<Incident>, events: seq<Event>, more: seq<Event>,
                                               suspicious: bool)
    requires var s := Run(Boot(loaded), events); s.incident.Some? && !s.incident.value.persistenceFailed
    ensures !Allows(Run(Boot(Run(Boot(loaded), events).saved), more), suspicious)
  {
    hide Run;
    RunKept(loaded, events);
    LatchHolds(Boot(Run(Boot(loaded), events).saved), more);
  }
}
