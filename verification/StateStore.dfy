// The bounded operation log of the local-control supervisor (src/local-control/state-store.ts).
module StateStore {
  import opened Wrappers

  datatype Action = Start | Stop | RestartAction | KillPort | ClaudePortFix
  datatype Dispatch = Execute | Prepare
  datatype Response = Accepted | Completed | Failed(code: string)
  datatype Record = Record(id: string, target: string, action: Action, dispatch: Dispatch, response: Response)

  type Log = seq<Record>

  function Ids(log: Log): set<string> {
    set i | 0 <= i < |log| :: log[i].id
  }

  predicate UniqueIds(log: Log) {
    forall i, j :: 0 <= i < j < |log| ==> log[i].id != log[j].id
  }

  /** Position of the first record of an operation; the length of the log when there is none. */
  function IndexOf(log: Log, id: string): (k: nat)
    ensures k <= |log|
    ensures k < |log| ==> log[k].id == id
    ensures forall i :: 0 <= i < k ==> log[i].id != id
  {
    if log == [] || log[0].id == id then 0 else 1 + IndexOf(log[1..], id)
  }

  function Find(log: Log, id: string): (r: Option<Record>)
    ensures r.Some? <==> id in Ids(log)
    ensures r.Some? ==> r.value in log && r.value.id == id
  {
    var k := IndexOf(log, id);
    if k < |log| then Some(log[k]) else None
  }

  function Newest(log: Log, max: nat): Log {
    if |log| <= max then log else log[|log| - max..]
  }

  function Accept(log: Log, record: Record, max: nat): Log {
    var k := IndexOf(log, record.id);
    Newest(if k < |log| then log[k := record] else log + [record], max)
  }

  /** Completing an operation whose record was evicted is an error; the log stays as it is. */
  function Complete(log: Log, id: string, response: Response): Log {
    var k := IndexOf(log, id);
    if k < |log| then log[k := log[k].(response := response)] else log
  }

  function Interrupt(record: Record): Record {
    if record.response.Accepted? then record.(response := Failed("INTERRUPTED")) else record
  }

  function InterruptAll(log: Log): Log {
    seq(|log|, i requires 0 <= i < |log| => Interrupt(log[i]))
  }

  function Initialize(log: Log, max: nat): Log {
    Newest(InterruptAll(log), max)
  }

  /** The store: what it answers from (`operations`) and what the file holds (`durable`). A failed
      write of an acceptance is rolled back; a failed write of a completion stays visible. */
  class OperationStore {
    const maxOperations: nat
    var operations: Log
    var durable: Log

    constructor (maxOperations: nat, durable: Log)
      ensures this.maxOperations == maxOperations && this.durable == durable && operations == []
    {
      this.maxOperations, this.durable, operations := maxOperations, durable, [];
    }

    method FindIndex(id: string) returns (k: nat)
      ensures k == IndexOf(operations, id)
    {
      k := 0;
      while k < |operations| && operations[k].id != id
        invariant 0 <= k <= |operations|
        invariant forall i :: 0 <= i < k ==> operations[i].id != id
      {
        k := k + 1;
      }
      var first := IndexOf(operations, id);
      assert !(first < k) && !(k < first);
    }

    method Boot(writeOk: bool)
      modifies this
      ensures operations == Initialize(old(durable), maxOperations)
      ensures durable == if writeOk then operations else old(durable)
    {
      var interrupted: Log := [];
      for i := 0 to |durable|
        invariant |interrupted| == i
        invariant forall j :: 0 <= j < i ==> interrupted[j] == Interrupt(durable[j])
      {
        interrupted := interrupted + [Interrupt(durable[i])];
      }
      operations := Newest(interrupted, maxOperations);
      assert interrupted == InterruptAll(durable);
      if writeOk {
        durable := operations;
      }
    }

    method RecordAccepted(record: Record, writeOk: bool)
      modifies this
      ensures writeOk ==> operations == durable == Accept(old(operations), record, maxOperations)
      ensures !writeOk ==> operations == old(operations) && durable == old(durable)
    {
      var next := operations;
      var existing := FindIndex(record.id);
      if existing < |next| {
        next := next[existing := record];
      } else {
        next := next + [record];
      }
      next := Newest(next, maxOperations);
      if writeOk {
        operations, durable := next, next;
      }
    }

    method RecordCompleted(id: string, response: Response, writeOk: bool) returns (known: bool)
      modifies this
      ensures known <==> id in Ids(old(operations))
      ensures operations == Complete(old(operations), id, response)
      ensures durable == if known && writeOk then operations else old(durable)
    {
      var existing := FindIndex(id);
      known := existing < |operations|;
      if known {
        operations := operations[existing := operations[existing].(response := response)];
        if writeOk {
          durable := operations;
        }
      }
    }

    /** A status of the backend is written with the whole state: operations that were kept in memory only
        become durable with it. */
    method RecordExcubitor(writeOk: bool)
      modifies this`durable
      ensures durable == if writeOk then operations else old(durable)
    {
      if writeOk {
        durable := operations;
      }
    }
  }

  // ----- What the updates keep -----

  lemma CompleteKeeps(log: Log, id: string, response: Response)
    ensures var log' := Complete(log, id, response);
      && |log'| == |log| && Ids(log') == Ids(log)
      && (UniqueIds(log) ==> UniqueIds(log'))
      && forall other :: other != id ==> Find(log', other) == Find(log, other)
    ensures id in Ids(log) ==>
      && Find(Complete(log, id, response), id) == Some(Find(log, id).value.(response := response))
  {
    var k := IndexOf(log, id);
    var log' := Complete(log, id, response);
    forall i | 0 <= i < |log| ensures log'[i].id == log[i].id {
    }
    assert forall x :: x in Ids(log') <==> x in Ids(log) by {
      forall x | x in Ids(log) ensures x in Ids(log') {
        var i :| 0 <= i < |log| && log[i].id == x;
        assert log'[i].id == x;
      }
    }
    forall other | other != id ensures Find(log', other) == Find(log, other) {
      SameIdsSameIndex(log, log', other);
    }
    SameIdsSameIndex(log, log', id);
  }

  lemma SameIdsSameIndex(a: Log, b: Log, id: string)
    requires |a| == |b| && forall i :: 0 <= i < |a| ==> a[i].id == b[i].id
    ensures IndexOf(a, id) == IndexOf(b, id)
  {
    var i, j := IndexOf(a, id), IndexOf(b, id);
    assert !(i < j) && !(j < i);
  }

  lemma FindUnique(log: Log, i: nat)
    requires UniqueIds(log) && i < |log|
    ensures Find(log, log[i].id) == Some(log[i])
  {
    var k := IndexOf(log, log[i].id);
    assert k <= i;
    assert k == i;
  }

  lemma SuffixIds(log: Log, d: nat)
    requires d <= |log|
    ensures Ids(log[d..]) <= Ids(log)
    ensures UniqueIds(log) ==> UniqueIds(log[d..])
  {
    forall x | x in Ids(log[d..]) ensures x in Ids(log) {
      var i :| 0 <= i < |log[d..]| && log[d..][i].id == x;
      assert log[d + i].id == x;
    }
  }

  /** What is kept is the end of the log, as long as the bound allows. */
  lemma NewestIsEnd(log: Log, max: nat)
    ensures var kept := Newest(log, max);
      |kept| == (if |log| < max then |log| else max) && log == log[..|log| - |kept|] + kept
  {
  }

  /** A new record is appended; the log stays as long as the bound allows, and only a full log evicts,
      and then its oldest record alone. */
  lemma AcceptEvicts(log: Log, record: Record, max: nat, id: string)
    requires UniqueIds(log) && max > 0 && |log| <= max && record.id !in Ids(log)
    ensures var log' := Accept(log, record, max);
      && |log'| == (if |log| < max then |log| + 1 else max) && log'[|log'| - 1] == record
      && (id in Ids(log) && id !in Ids(log') <==> |log| == max && log[0].id == id)
  {
    hide Ids;
    KnownIds(log, IndexOf(log, record.id), record.id);
    var log' := Accept(log, record, max);
    var d := if |log| < max then 0 else 1;
    assert log' == log[d..] + [record];
    if id in Ids(log) {
      var i := IndexIn(log, id);
      KnownIds(log', if i >= d then i - d else 0, id);
    }
    if |log| == max {
      KnownIds(log, 0, log[0].id);
      FirstIsGone(log, log', record);
    }
  }

  /** A known record is replaced where it stands; nothing is evicted. */
  lemma AcceptReplaces(log: Log, record: Record, max: nat)
    requires UniqueIds(log) && |log| <= max && record.id in Ids(log)
    ensures var log' := Accept(log, record, max);
      |log'| == |log| && forall i :: 0 <= i < |log| ==> log'[i] == if log[i].id == record.id then record else log[i]
  {
    KnownIds(log, IndexOf(log, record.id), record.id);
  }

  lemma FirstIsGone(log: Log, log': Log, record: Record)
    requires UniqueIds(log) && log != [] && record.id !in Ids(log) && log' == log[1..] + [record]
    ensures log[0].id !in Ids(log')
  {
    KnownIds(log, 0, log[0].id);
    forall k | 0 <= k < |log'| ensures log'[k].id != log[0].id {
      assert k < |log'| - 1 ==> log'[k] == log[k + 1];
    }
  }

  /** An operation that was still accepted failed as interrupted; every other record is as it was. */
  lemma InterruptedAtStart(log: Log, max: nat)
    requires |log| <= max
    ensures |Initialize(log, max)| == |log|
    ensures forall i :: 0 <= i < |log| ==>
      Initialize(log, max)[i]
      == log[i].(response := if log[i].response.Accepted? then Failed("INTERRUPTED") else log[i].response)
  {
  }

  /** Keeping the newest records drops only oldest ones and changes none. */
  lemma NewestKeeps(log: Log, max: nat, id: string)
    requires UniqueIds(log)
    ensures UniqueIds(Newest(log, max)) && Ids(Newest(log, max)) <= Ids(log)
    ensures id in Ids(Newest(log, max)) ==> Find(Newest(log, max), id) == Find(log, id)
  {
    hide Find, IndexOf, UniqueIds;
    var kept := Newest(log, max);
    var d := |log| - |kept|;
    SuffixIds(log, d);
    assert log[0..] == log;
    if id in Ids(kept) {
      var i :| 0 <= i < |kept| && kept[i].id == id;
      FindUnique(kept, i);
      FindUnique(log, d + i);
    }
  }

  /** Accepting an operation, new or known: ids stay unique, the record is in the log if there was
      room for it, and every other record is kept as it was or evicted. */
  lemma AcceptKeeps(log: Log, record: Record, max: nat, id: string)
    requires UniqueIds(log) && max > 0
    ensures var log' := Accept(log, record, max);
      && UniqueIds(log') && Ids(log') <= Ids(log) + {record.id}
      && (record.id !in Ids(log) || |log| <= max ==> Find(log', record.id) == Some(record))
      && (record.id in Ids(log') ==> Find(log', record.id) == Some(record))
      && (id != record.id && id in Ids(log') ==> Find(log', id) == Find(log, id))
  {
    hide Find, Ids;
    var k := IndexOf(log, record.id);
    KnownIds(log, k, record.id);
    var whole := if k < |log| then log[k := record] else log + [record];
    assert forall i :: 0 <= i < |whole| && i != k ==> i < |log| && whole[i] == log[i];
    assert whole[k] == record && UniqueIds(whole);
    WholeIds(log, whole, k, record);
    NewestKeeps(whole, max, id);
    NewestKeeps(whole, max, record.id);
    FindUnique(whole, k);
    var kept := Newest(whole, max);
    if k == |log| || |log| <= max {
      assert kept[k - (|whole| - |kept|)] == record;
      KnownIds(kept, k - (|whole| - |kept|), record.id);
    }
    if id != record.id && id in Ids(kept) {
      OtherFound(log, whole, k, id);
    }
  }

  lemma OtherFound(log: Log, whole: Log, k: nat, id: string)
    requires UniqueIds(log) && UniqueIds(whole) && id in Ids(whole) && k < |whole| && whole[k].id != id
    requires forall i :: 0 <= i < |whole| && i != k ==> i < |log| && whole[i] == log[i]
    ensures Find(whole, id) == Find(log, id)
  {
    hide Find, UniqueIds;
    var i := IndexIn(whole, id);
    FindUnique(whole, i);
    FindUnique(log, i);
  }

  lemma KnownIds(log: Log, k: nat, id: string)
    ensures k < |log| && log[k].id == id ==> id in Ids(log)
    ensures k == IndexOf(log, id) == |log| ==> id !in Ids(log)
  {
  }

  lemma IndexIn(log: Log, id: string) returns (i: nat)
    requires id in Ids(log)
    ensures i < |log| && log[i].id == id
  {
    i :| 0 <= i < |log| && log[i].id == id;
  }

  lemma WholeIds(log: Log, whole: Log, k: nat, record: Record)
    requires k < |whole| && whole[k] == record
    requires forall i :: 0 <= i < |whole| && i != k ==> i < |log| && whole[i] == log[i]
    ensures Ids(whole) <= Ids(log) + {record.id}
  {
  }

  /** No accepted record survives a supervisor start; every kept record keeps everything else. */
  lemma InitializeKeeps(log: Log, max: nat, id: string)
    requires UniqueIds(log)
    ensures var log' := Initialize(log, max);
      && UniqueIds(log') && Ids(log') <= Ids(log)
      && (forall record :: record in log' ==> !record.response.Accepted?)
      && (id in Ids(log') ==> Find(log', id) == Some(Interrupt(Find(log, id).value)))
  {
    var whole := InterruptAll(log);
    assert forall i :: 0 <= i < |log| ==> whole[i].id == log[i].id;
    NewestKeeps(whole, max, id);
    assert Ids(whole) <= Ids(log);
    if id in Ids(Newest(whole, max)) {
      var i :| 0 <= i < |whole| && whole[i].id == id;
      FindUnique(whole, i);
      FindUnique(log, i);
    }
  }
}
