// The ring of recent DNS queries and its counters (src/dnsfilter/query-log.ts). It keeps the same
// history as the rings of log lines, in a growing array with a write index.
module QueryLog {
  import opened Rings

  datatype Action = Allowed | Blocked | Failed | Refused

  datatype Query = Query(at: int, client: string, name: string, qtype: string, action: Action, elapsed: int)

  datatype Counters = Counters(total: nat, allowed: nat, blocked: nat, failed: nat, refused: nat, malformed: nat)

  function Counted(c: Counters, action: Action): Counters {
    var c := c.(total := c.total + 1);
    match action
    case Allowed => c.(allowed := c.allowed + 1)
    case Blocked => c.(blocked := c.blocked + 1)
    case Failed => c.(failed := c.failed + 1)
    case Refused => c.(refused := c.refused + 1)
  }

  predicate Balanced(c: Counters) {
    c.total == c.allowed + c.blocked + c.failed + c.refused + c.malformed
  }

  /** What the array retains, oldest first: from the write index around, once it is full. */
  function Kept(records: seq<Query>, next: nat, capacity: nat): seq<Query> {
    if |records| < capacity || next > |records| then records else records[next..] + records[..next]
  }

  ghost predicate Shape(records: seq<Query>, next: nat, capacity: nat) {
    && capacity > 0 && |records| <= capacity
    && (if |records| < capacity then next == |records| else next < capacity)
  }

  /** The index arithmetic of `recent`: the `index`-th newest record. */
  lemma {:induction false} NewestAt(records: seq<Query>, next: nat, capacity: nat, index: nat)
    requires Shape(records, next, capacity) && 1 <= index <= |records|
    ensures var k := (next - index + |records| * 2) % |records|;
      0 <= k < |records| && records[k] == NewestFirst(Kept(records, next, capacity))[index - 1]
  {
    hide NewestFirst;
    var d := next - index;
    Wraps(d, |records|);
    NewestFirstAt(Kept(records, next, capacity), index - 1);
  }

  lemma NewestLength(records: seq<Query>, next: nat, capacity: nat)
    ensures |NewestFirst(Kept(records, next, capacity))| == |records|
  {
  }

  lemma NewestFirstAt<T>(s: seq<T>, i: nat)
    requires i < |s|
    ensures NewestFirst(s)[i] == s[|s| - 1 - i]
  {
  }

  /** `(d + 2 * size) % size` for an index at most one turn back. */
  lemma Wraps(d: int, size: nat)
    requires size > 0 && 0 <= d + size && d <= size
    ensures (d + size * 2) % size == if d < 0 then d + size else if d < size then d else 0
  {
    var n: nat := d + size * 2;
    var q := n / size;
    assert n == size * q + n % size;
    var r: nat := if d < 0 then d + size else if d < size then d else 0;
    var p := if d < 0 then 1 else if d < size then 2 else 3;
    SameQuotient(size, q, n % size, p, r);
  }

  lemma SameQuotient(size: nat, q: int, r: nat, p: int, s: nat)
    requires r < size && s < size && size * q + r == size * p + s
    ensures r == s
  {
    var d := q - p;
    assert size * d == s - r by {
      Distributes(size, q, p);
    }
    if d > 0 {
      Grows(size, d);
    } else if d < 0 {
      Grows(size, -d);
    }
  }

  lemma Distributes(size: nat, q: int, p: int)
    ensures size * (q - p) == size * q - size * p
  {
  }

  lemma Grows(size: nat, d: int)
    requires d >= 1
    ensures size * d >= size
  {
  }

  class QueryLog {
    var capacity: nat
    var records: seq<Query>
    var next: nat
    var counters: Counters

    ghost predicate Valid()
      reads this
    {
      Shape(records, next, capacity) && Balanced(counters)
    }

    ghost function Contents(): seq<Query>
      reads this
    {
      Kept(records, next, capacity)
    }

    constructor (capacity: nat)
      requires capacity > 0
      ensures Valid() && this.capacity == capacity && Contents() == []
      ensures counters == Counters(0, 0, 0, 0, 0, 0)
    {
      this.capacity, records, next, counters := capacity, [], 0, Counters(0, 0, 0, 0, 0, 0);
    }

    method Add(record: Query)
      requires Valid()
      modifies this`records, this`next, this`counters
      ensures Valid() && counters == Counted(old(counters), record.action)
      ensures Contents() == Suffix(old(Contents()) + [record], capacity)
    {
      counters := Counted(counters, record.action);
      AddKeeps(records, next, capacity, record);
      if |records| < capacity {
        records := records + [record];
      } else {
        records := records[next := record];
      }
      next := (next + 1) % capacity;
    }

    /** An event that is counted only. */
    method CountRefused()
      requires Valid()
      modifies this`counters
      ensures Valid()
      ensures counters == old(counters).(total := old(counters).total + 1, refused := old(counters).refused + 1)
    {
      counters := counters.(total := counters.total + 1, refused := counters.refused + 1);
    }

    method CountMalformed()
      requires Valid()
      modifies this`counters
      ensures Valid()
      ensures counters == old(counters).(total := old(counters).total + 1, malformed := old(counters).malformed + 1)
    {
      counters := counters.(total := counters.total + 1, malformed := counters.malformed + 1);
    }

    /** The newest records that pass the filter, newest first, at most `limit` of them. */
    method Recent(limit: int, filter: Query -> bool) returns (ordered: seq<Query>)
      requires Valid()
      ensures ordered == Take(Filter(NewestFirst(Contents()), filter), limit)
      ensures forall q :: q in ordered ==> q in Contents() && filter(q)
      ensures |ordered| <= if limit < 0 then 0 else limit
      ensures |ordered| < limit ==> forall q :: q in Contents() && filter(q) ==> q in ordered
    {
      hide NewestFirst, Kept;
      NewestLength(records, next, capacity);
      ordered := [];
      var size := |records|;
      var index: nat := 1;
      ghost var newest := NewestFirst(Contents());
      while index <= size && |ordered| < limit
        invariant 1 <= index <= size + 1 && |newest| == size
        invariant ordered == Filter(newest[..index - 1], filter)
        invariant |ordered| <= limit || ordered == []
      {
        NewestAt(records, next, capacity, index);
        var record := records[(next - index + size * 2) % size];
        assert newest[..index][..index - 1] == newest[..index - 1];
        if filter(record) {
          ordered := ordered + [record];
        }
        index := index + 1;
      }
      assert newest == newest[..index - 1] + newest[index - 1..];
      FilterConcat(newest[..index - 1], newest[index - 1..], filter);
      assert ordered == Take(Filter(newest, filter), limit);
      hide Take, Filter;
      NewestKept(Contents(), filter, limit);
    }

    /** Another capacity; shrinking drops the oldest records. */
    method Resize(capacity: nat)
      requires Valid() && capacity > 0
      modifies this`capacity, this`records, this`next
      ensures Valid() && this.capacity == capacity
      ensures Contents() == Suffix(old(Contents()), capacity)
    {
      hide Kept, Suffix, NewestFirst, Filter, Take, Shape;
      if capacity == this.capacity {
        FitsItsCapacity(records, next, capacity);
        return;
      }
      var kept := Recent(capacity, (r: Query) => true);
      KeepsAll(NewestFirst(Contents()), (r: Query) => true);
      ResizeKeeps(Contents(), capacity);
      records := NewestFirst(kept);
      next := |records| % capacity;
      this.capacity := capacity;
    }
  }

  /** The write index moves on, back to 0 after the last slot. */
  lemma Advance(next: nat, capacity: nat)
    requires next < capacity
    ensures (next + 1) % capacity == if next + 1 == capacity then 0 else next + 1
  {
  }

  lemma {:induction false} AddKeeps(records: seq<Query>, next: nat, capacity: nat, record: Query)
    requires Shape(records, next, capacity)
    ensures var records' := if |records| < capacity then records + [record] else records[next := record];
      var next' := (next + 1) % capacity;
      && Shape(records', next', capacity)
      && Kept(records', next', capacity) == Suffix(Kept(records, next, capacity) + [record], capacity)
  {
    Advance(next, capacity);
    if |records| == capacity {
      if next + 1 < capacity {
        ReplacedAt(records, next, record);
      } else {
        ReplacedLast(records, record);
      }
    }
  }

  lemma ReplacedAt<T>(s: seq<T>, k: nat, v: T)
    requires k + 1 < |s|
    ensures s[k := v][k + 1..] + s[k := v][..k + 1] == Suffix(s[k..] + s[..k] + [v], |s|)
  {
    assert s[k..] == [s[k]] + s[k + 1..];
  }

  lemma ReplacedLast<T>(s: seq<T>, v: T)
    requires s != []
    ensures var k := |s| - 1; s[k := v] + [] == Suffix(s[k..] + s[..k] + [v], |s|)
  {
  }

  lemma FitsItsCapacity(records: seq<Query>, next: nat, capacity: nat)
    requires Shape(records, next, capacity)
    ensures Suffix(Kept(records, next, capacity), capacity) == Kept(records, next, capacity)
  {
  }

  /** Resizing puts the newest records back oldest first. */
  lemma ResizeKeeps(kept: seq<Query>, capacity: nat)
    requires capacity > 0
    ensures var records := NewestFirst(Take(NewestFirst(kept), capacity));
      Shape(records, |records| % capacity, capacity)
      && Kept(records, |records| % capacity, capacity) == Suffix(kept, capacity)
  {
    hide Suffix;
    KeptIsSuffix(kept, capacity);
    var records := NewestFirst(Take(NewestFirst(kept), capacity));
    if |records| == capacity {
      assert records[0..] + records[..0] == records;
    }
  }

  lemma {:induction false} KeepsAll(s: seq<Query>, keep: Query -> bool)
    requires forall q :: keep(q)
    ensures Filter(s, keep) == s
    decreases |s|
  {
    if s != [] {
      KeepsAll(s[..|s| - 1], keep);
    }
  }

  // ----- The counters over a history -----

  function CountAll(history: seq<Action>): Counters {
    if history == [] then Counters(0, 0, 0, 0, 0, 0)
    else Counted(CountAll(history[..|history| - 1]), history[|history| - 1])
  }

  function Occurrences(history: seq<Action>, action: Action): nat {
    if history == [] then 0
    else Occurrences(history[..|history| - 1], action) + if history[|history| - 1] == action then 1 else 0
  }

  /** Each counter is the number of records with its action. */
  lemma {:induction false} CountersCount(history: seq<Action>)
    ensures CountAll(history) == Counters(|history|, Occurrences(history, Allowed), Occurrences(history, Blocked),
                                          Occurrences(history, Failed), Occurrences(history, Refused), 0)
  {
    if history != [] {
      CountersCount(history[..|history| - 1]);
    }
  }
}
