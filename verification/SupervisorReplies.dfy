// When a request must be answered how: replays, joins, new dispatches, conflicts and commits.
module SupervisorReplies {
  import opened Wrappers
  import opened StateStore
  import opened Supervisor
  import opened SupervisorSafety

  /** Different targets have different keys. */
  lemma TargetKeysDiffer(a: Target, b: Target)
    ensures TargetKey(a) == TargetKey(b) <==> a == b
  {
    assert "excubitor"[0] == 'e';
    if a.Service? {
      assert TargetKey(a)[0] == 's' && TargetKey(a)[8..] == a.code;
    }
    if b.Service? {
      assert TargetKey(b)[0] == 's' && TargetKey(b)[8..] == b.code;
    }
  }

  /** The record of the operation this request started. */
  predicate RecordOf(record: Record, origin: Request) {
    && record.id == origin.id && record.target == TargetKey(origin.target) && record.action == origin.action
    && (record.dispatch.Prepare? <==> origin.mode.PrepareMode?)
  }

  /** Only a stop or restart of Excubitor itself can be prepared. */
  predicate Preparable(r: Request) {
    r.target.Excubitor? && (r.action.Stop? || r.action.RestartAction?)
  }

  /** A request to execute, or to prepare what can be prepared, while the supervisor is not closing. */
  predicate Admissible(s: State, r: Request) {
    !s.closing && !r.mode.CommitMode? && (r.mode.PrepareMode? ==> Preparable(r))
  }

  /** The log has a record of this id that a different request started. */
  ghost predicate RecordDiffers(s: State, r: Request) {
    Find(s.operations, r.id).Some? && !RecordOf(Find(s.operations, r.id).value, r)
  }

  ghost predicate InflightDiffers(s: State, r: Request) {
    Find(s.operations, r.id).None? && r.id in s.inflight
    && !(s.inflight[r.id].request.target == r.target && s.inflight[r.id].request.action == r.action
         && s.inflight[r.id].request.mode == r.mode)
  }

  /** The recorded response of the operation it repeats, a place beside the dispatch in flight it repeats,
      or a new dispatch for an unused id; a conflict if and only if its id belongs to a record or a dispatch
      of a different target, action or mode. */
  ghost predicate RepliesFully(s: State, r: Request, reply: Reply) {
    var found := Find(s.operations, r.id);
    && (found.Some? && RecordOf(found.value, r) ==> reply == Replayed(found.value.response))
    && (found.None? && r.id in s.inflight && !InflightDiffers(s, r) ==> reply == Joined)
    && (found.None? && r.id !in s.inflight ==> reply == Began)
    && (reply == Refused("OPERATION_ID_CONFLICT") <==> RecordDiffers(s, r) || InflightDiffers(s, r))
  }

  lemma AdmissibleIsAnswered(s: State, r: Request)
    requires Admissible(s, r)
    ensures RepliesFully(s, r, Answer(s, r))
  {
    hide Find;
    if r.id in s.inflight {
      TargetKeysDiffer(s.inflight[r.id].request.target, r.target);
    }
  }

  /** What is refused before the id is looked at. */
  lemma OthersAreRefused(s: State, r: Request)
    ensures s.closing ==> Answer(s, r) == Refused("SUPERVISOR_CLOSING")
    ensures !s.closing && r.mode.PrepareMode? && !Preparable(r) ==> Answer(s, r) == Refused("PREPARE_NOT_SUPPORTED")
    ensures !s.closing && r.mode.CommitMode? && !Preparable(r) ==> Answer(s, r) == Refused("COMMIT_NOT_SUPPORTED")
  {
  }

  /** A commit is armed for the prepared operation of its target and action while that is accepted, and
      answered with its outcome afterwards; it conflicts if and only if the operation has another target
      or action, and everything else was not prepared. */
  lemma CommitIsAnswered(s: State, r: Request)
    requires !s.closing && r.mode.CommitMode? && Preparable(r)
    ensures var found := Find(s.operations, r.id);
      var same := found.Some? && found.value.target == TargetKey(r.target) && found.value.action == r.action;
      && (same && found.value.dispatch.Prepare? ==>
            Answer(s, r) == if found.value.response.Accepted? then Callback(Accepted)
                            else Replayed(found.value.response))
      && (Answer(s, r) == Refused("OPERATION_ID_CONFLICT") <==> found.Some? && !same)
      && (Answer(s, r) == Refused("OPERATION_NOT_PREPARED")
          <==> found.None? || (same && !found.value.dispatch.Prepare?))
  {
    hide Find;
  }
}
