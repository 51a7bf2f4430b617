// The two ring buffers of recent lines and queries (src/log/ring-buffer.ts,
// src/dnsfilter/query-log.ts) and the history they both refine.
module Rings {
  import opened Wrappers

  // ----- History -----

  /** The newest `n` elements, oldest first. */
  function Suffix<T>(s: seq<T>, n: nat): seq<T> {
    if |s| <= n then s else s[|s| - n..]
  }

  function NewestFirst<T>(s: seq<T>): (r: seq<T>)
    ensures |r| == |s| && forall i :: 0 <= i < |s| ==> r[i] == s[|s| - 1 - i]
  {
    seq(|s|, i requires 0 <= i < |s| => s[|s| - 1 - i])
  }

  function Filter<T>(s: seq<T>, keep: T -> bool): seq<T> {
    if s == [] then []
    else Filter(s[..|s| - 1], keep) + if keep(s[|s| - 1]) then [s[|s| - 1]] else []
  }

  function Take<T>(s: seq<T>, limit: int): seq<T> {
    if limit <= 0 then [] else if limit < |s| then s[..limit] else s
  }

  ghost predicate IsSuffix<T>(s: seq<T>, whole: seq<T>) {
    |s| <= |whole| && s == whole[|whole| - |s|..]
  }

  lemma SuffixIsSuffix<T>(s: seq<T>, whole: seq<T>, n: nat)
    requires IsSuffix(s, whole)
    ensures IsSuffix(Suffix(s, n), whole)
  {
  }

  lemma SuffixPush<T>(s: seq<T>, whole: seq<T>, v: T, n: nat)
    requires IsSuffix(s, whole)
    ensures IsSuffix(Suffix(s + [v], n), whole + [v])
  {
    SuffixIsSuffix(s + [v], whole + [v], n);
  }

  lemma {:induction false} FilterConcat<T>(a: seq<T>, b: seq<T>, keep: T -> bool)
    ensures Filter(a + b, keep) == Filter(a, keep) + Filter(b, keep)
    decreases |b|
  {
    if b == [] {
      assert a + b == a;
    } else {
      FilterConcat(a, b[..|b| - 1], keep);
      assert (a + b)[..|a + b| - 1] == a + b[..|b| - 1];
    }
  }

  lemma FilterSuffix<T>(s: seq<T>, whole: seq<T>, keep: T -> bool)
    requires IsSuffix(s, whole)
    ensures IsSuffix(Filter(s, keep), Filter(whole, keep))
  {
    var front := whole[..|whole| - |s|];
    assert whole == front + s;
    FilterConcat(front, s, keep);
  }

  // ----- CircularBuffer -----

  /** `(start + i) % capacity`. */
  function Slot(start: nat, i: nat, capacity: nat): (k: nat)
    requires capacity > 0
    ensures k < capacity
    ensures start < capacity && i <= capacity ==> k == if start + i < capacity then start + i else start + i - capacity
  {
    SlotWraps(start, i, capacity);
    (start + i) % capacity
  }

  lemma SlotWraps(start: nat, i: nat, capacity: nat)
    requires capacity > 0
    ensures start < capacity && i <= capacity ==>
      (start + i) % capacity == if start + i < capacity then start + i else start + i - capacity
  {
    if start < capacity && i <= capacity && start + i >= capacity {
      ModMinus(start + i, capacity);
    }
  }

  lemma ModMinus(n: nat, capacity: nat)
    requires 0 < capacity <= n < 2 * capacity
    ensures n % capacity == n - capacity
  {
  }

  ghost predicate Filled<T>(entries: seq<Option<T>>, start: nat, count: nat) {
    && start < |entries| && count <= |entries|
    && forall i :: 0 <= i < count ==> entries[Slot(start, i, |entries|)].Some?
  }

  /** What a ring retains, oldest first. */
  ghost function Retained<T>(entries: seq<Option<T>>, start: nat, count: nat): (s: seq<T>)
    requires Filled(entries, start, count)
    ensures |s| == count
  {
    seq(count, i requires 0 <= i < count => entries[Slot(start, i, |entries|)].value)
  }

  lemma PushRoom<T>(entries: seq<Option<T>>, start: nat, count: nat, v: T)
    requires Filled(entries, start, count) && count < |entries|
    ensures var entries' := entries[Slot(start, count, |entries|) := Some(v)];
      Filled(entries', start, count + 1)
      && Retained(entries', start, count + 1) == Retained(entries, start, count) + [v]
  {
    hide Slot;
  }

  lemma PushFull<T>(entries: seq<Option<T>>, start: nat, v: T)
    requires Filled(entries, start, |entries|)
    ensures var entries', start' := entries[start := Some(v)], Slot(start, 1, |entries|);
      Filled(entries', start', |entries|)
      && Retained(entries', start', |entries|) == Suffix(Retained(entries, start, |entries|) + [v], |entries|)
  {
    hide Slot;
    var n := |entries|;
    var entries', start' := entries[start := Some(v)], Slot(start, 1, n);
    forall i | 0 <= i < n
      ensures entries'[Slot(start', i, n)] == if i == n - 1 then Some(v) else entries[Slot(start, i + 1, n)]
    {
    }
  }

  class CircularBuffer<T> {
    var capacity: nat
    var entries: array<Option<T>>
    var start: nat
    var count: nat

    ghost predicate Valid()
      reads this, entries
    {
      entries.Length == capacity && Filled(entries[..], start, count)
    }

    ghost function Contents(): (s: seq<T>)
      requires Valid()
      reads this, entries
      ensures |s| == count
    {
      Retained(entries[..], start, count)
    }

    constructor (capacity: nat)
      requires capacity > 0
      ensures Valid() && fresh(entries) && this.capacity == capacity && Contents() == []
    {
      this.capacity, start, count := capacity, 0, 0;
      entries := new Option<T>[capacity](i => None);
    }

    lemma ContentsFit()
      requires Valid()
      ensures |Contents()| <= capacity && capacity > 0
    {
    }

    method Push(value: T)
      requires Valid()
      modifies this`start, this`count, entries
      ensures Valid()
      ensures Contents() == Suffix(old(Contents()) + [value], capacity)
      ensures |Contents()| == if |old(Contents())| < capacity then |old(Contents())| + 1 else capacity
      ensures Contents() != [] && Contents()[|Contents()| - 1] == value
    {
      ContentsFit();
      SuffixOfOneMore(Contents(), value, capacity);
      hide Filled, Retained, Suffix;
      CapacityIsPositive(entries[..], start, count);
      if count < capacity {
        PushRoom(entries[..], start, count, value);
        entries[Slot(start, count, capacity)] := Some(value);
        count := count + 1;
        return;
      }
      PushFull(entries[..], start, value);
      entries[start] := Some(value);
      start := Slot(start, 1, capacity);
    }

    method NewestFirstValues() returns (result: seq<T>)
      requires Valid()
      ensures result == NewestFirst(Contents())
    {
      result := [];
      var offset := count - 1;
      while offset >= 0
        invariant -1 <= offset < count
        invariant |result| == count - 1 - offset
        invariant forall k :: 0 <= k < |result| ==> result[k] == Contents()[count - 1 - k]
      {
        var value := entries[Slot(start, offset, capacity)];
        assert value == entries[..][Slot(start, offset, capacity)];
        if value.Some? {
          result := result + [value.value];
        }
        offset := offset - 1;
      }
    }

    method Reallocate(capacity: nat)
      requires capacity > 0
      modifies this
      ensures Valid() && this.capacity == capacity && fresh(entries) && Contents() == []
    {
      this.capacity, start, count := capacity, 0, 0;
      entries := new Option<T>[capacity](i => None);
      EmptyRing(entries[..]);
    }

    method PushAll(values: seq<T>)
      requires Valid() && Contents() == [] && |values| <= capacity
      modifies this`start, this`count, entries
      ensures Valid() && Contents() == values
    {
      hide Filled, Retained;
      for i := 0 to |values|
        invariant Valid() && Contents() == values[..i]
      {
        Push(values[i]);
        assert values[..i + 1] == values[..i] + [values[i]];
      }
      assert values[..|values|] == values;
    }

    /** Keeps the newest entries that fit. */
    method Resize(capacity: nat)
      requires Valid() && capacity > 0
      modifies this
      ensures Valid() && this.capacity == capacity && fresh(entries)
      ensures Contents() == Suffix(old(Contents()), capacity)
      ensures |Contents()| == if |old(Contents())| < capacity then |old(Contents())| else capacity
    {
      hide Filled, Retained;
      var newest := NewestFirstValues();
      KeptIsSuffix(Contents(), capacity);
      Reallocate(capacity);
      PushAll(NewestFirst(if |newest| <= capacity then newest else newest[..capacity]));
    }
  }

  lemma SuffixOfOneMore<T>(s: seq<T>, value: T, capacity: nat)
    requires |s| <= capacity && capacity > 0
    ensures var kept := Suffix(s + [value], capacity);
      && |kept| == (if |s| < capacity then |s| + 1 else capacity)
      && kept[|kept| - 1] == value
  {
  }

  lemma KeptIsSuffix<T>(s: seq<T>, capacity: nat)
    ensures NewestFirst(if |s| <= capacity then NewestFirst(s) else NewestFirst(s)[..capacity]) == Suffix(s, capacity)
  {
  }

  lemma EmptyRing<T>(entries: seq<Option<T>>)
    requires entries != []
    ensures Filled(entries, 0, 0) && Retained(entries, 0, 0) == []
  {
  }

  lemma CapacityIsPositive<T>(entries: seq<Option<T>>, start: nat, count: nat)
    requires Filled(entries, start, count)
    ensures start < |entries| && count <= |entries|
  {
  }

  // ----- LogRingBuffer -----

  datatype Line = Line(id: nat, code: string, channel: string, ts: int, level: Option<string>, text: string)

  function OfCode(history: seq<Line>, code: string): seq<Line> {
    Filter(history, (l: Line) => l.code == code)
  }

  /** `slice(0, end)`. */
  function SliceTo<T>(s: seq<T>, end: int): seq<T> {
    if end >= 0 then Take(s, end) else if |s| + end > 0 then s[..|s| + end] else []
  }

  predicate Wanted(codes: Option<set<string>>, l: Line) {
    codes.None? || l.code in codes.value
  }

  /** The lines `recent` finds. Its limit is checked after the first line was taken. */
  function RecentLines(retained: seq<Line>, codes: Option<set<string>>, limit: int): seq<Line> {
    Take(Filter(NewestFirst(retained), (l: Line) => Wanted(codes, l)), if limit < 1 then 1 else limit)
  }

  /** The two views of the lines: a ring of all of them and one ring for each service. */
  class LogRingBuffer {
    var perService: map<string, CircularBuffer<Line>>
    var globalLines: CircularBuffer<Line>
    var perServiceCapacity: nat
    var globalCapacity: nat
    var nextId: nat
    ghost var history: seq<Line>
    ghost var rings: set<CircularBuffer<Line>>
    ghost var slots: set<array<Option<Line>>>

    /** The rings and their slots belong to this object, and no two rings share slots. */
    ghost predicate Apart()
      reads this`perService, this`globalLines, this`rings, this`slots, rings
    {
      && globalLines in rings && globalLines.entries in slots
      && (forall c :: c in perService ==>
            && perService[c] in rings && perService[c].entries in slots
            && perService[c] != globalLines && perService[c].entries != globalLines.entries)
      && (forall c, d :: c in perService && d in perService && c != d ==>
            perService[c] != perService[d] && perService[c].entries != perService[d].entries)
    }

    ghost predicate AllValid()
      requires Apart()
      reads this`perService, this`globalLines, this`rings, this`slots, rings, slots
    {
      globalLines.Valid() && forall c :: c in perService ==> perService[c].Valid()
    }

    ghost predicate Capacities(service: nat, global: nat)
      requires Apart()
      reads this`perService, this`globalLines, this`rings, this`slots, rings
    {
      globalLines.capacity == global && forall c :: c in perService ==> perService[c].capacity == service
    }

    ghost function GlobalView(): seq<Line>
      requires Apart() && AllValid()
      reads this`perService, this`globalLines, this`rings, this`slots, rings, slots
    {
      globalLines.Contents()
    }

    ghost function ServiceViews(): map<string, seq<Line>>
      requires Apart() && AllValid()
      reads this`perService, this`globalLines, this`rings, this`slots, rings, slots
    {
      map c | c in perService :: perService[c].Contents()
    }

    ghost predicate Valid()
      reads this, rings, slots
    {
      && Apart() && AllValid() && Capacities(perServiceCapacity, globalCapacity)
      && perServiceCapacity > 0 && globalCapacity > 0 && nextId == |history| + 1
      && Numbered(history) && Views(GlobalView(), ServiceViews(), history)
    }

    constructor (perServiceCapacity: nat, globalCapacity: nat)
      requires perServiceCapacity > 0 && globalCapacity > 0
      ensures Valid() && history == [] && fresh(rings) && fresh(slots)
    {
      this.perServiceCapacity, this.globalCapacity := perServiceCapacity, globalCapacity;
      perService, nextId, history := map[], 1, [];
      globalLines := new CircularBuffer<Line>(globalCapacity);
      new;
      rings, slots := {globalLines}, {globalLines.entries};
    }

    lemma Owned()
      requires Apart()
      ensures globalLines in rings && globalLines.entries in slots && perService.Values <= rings
      ensures forall c :: c in perService ==> perService[c].entries in slots
    {
    }

    method PushGlobal(line: Line)
      requires Apart() && AllValid() && Capacities(perServiceCapacity, globalCapacity)
      modifies globalLines, globalLines.entries
      ensures Apart() && AllValid() && Capacities(perServiceCapacity, globalCapacity)
      ensures GlobalView() == Suffix(old(GlobalView()) + [line], globalCapacity)
      ensures ServiceViews() == old(ServiceViews())
    {
      hide Filled, Retained, Suffix;
      globalLines.Push(line);
      assert forall c ::
          c in perService ==> perService[c].Valid() && perService[c].Contents() == old(perService[c].Contents());
    }

    method OwnRing(code: string, ring: CircularBuffer<Line>)
      requires Apart() && code !in perService && ring !in rings && ring.entries !in slots
      modifies this`perService, this`rings, this`slots
      ensures Apart() && perService == old(perService)[code := ring]
      ensures rings == old(rings) + {ring} && slots == old(slots) + {ring.entries}
    {
      ghost var before := perService;
      perService := perService[code := ring];
      rings, slots := rings + {ring}, slots + {ring.entries};
      assert forall c :: c in perService ==> c == code || (c in before && perService[c] == before[c]);
    }

    method AddRing(code: string, ring: CircularBuffer<Line>)
      requires Apart() && AllValid() && Capacities(perServiceCapacity, globalCapacity) && code !in perService
      requires ring !in rings && ring.entries !in slots
      requires ring.Valid() && ring.capacity == perServiceCapacity && ring.Contents() == []
      modifies this`perService, this`rings, this`slots
      ensures Apart() && AllValid() && Capacities(perServiceCapacity, globalCapacity) && code in perService
      ensures GlobalView() == old(GlobalView()) && ServiceViews() == old(ServiceViews())[code := []]
      ensures rings == old(rings) + {ring} && slots == old(slots) + {ring.entries}
    {
      hide Filled, Retained, CircularBuffer.Valid, CircularBuffer.Contents, LogRingBuffer.Apart;
      OwnRing(code, ring);
    }

    /** The ring of a service is made with its first line. */
    method EnsureRing(code: string)
      requires Apart() && AllValid() && Capacities(perServiceCapacity, globalCapacity) && perServiceCapacity > 0
      modifies this`perService, this`rings, this`slots
      ensures Apart() && AllValid() && Capacities(perServiceCapacity, globalCapacity) && code in perService
      ensures GlobalView() == old(GlobalView())
      ensures ServiceViews()
          == old(ServiceViews())[code := if code in old(ServiceViews()) then old(ServiceViews())[code] else []]
      ensures fresh(rings - old(rings)) && fresh(slots - old(slots))
    {
      hide Filled, Retained, CircularBuffer.Valid, CircularBuffer.Contents, LogRingBuffer.Apart, LogRingBuffer.AllValid;
      hide LogRingBuffer.Capacities, LogRingBuffer.GlobalView, LogRingBuffer.ServiceViews;
      ServiceCodes();
      if code in perService {
        return;
      }
      var serviceLines := new CircularBuffer<Line>(perServiceCapacity);
      AddRing(code, serviceLines);
    }

    method PushService(code: string, line: Line)
      requires Apart() && AllValid() && Capacities(perServiceCapacity, globalCapacity) && code in perService
      modifies perService[code], perService[code].entries
      ensures Apart() && AllValid() && Capacities(perServiceCapacity, globalCapacity)
      ensures GlobalView() == old(GlobalView())
      ensures ServiceViews()
          == old(ServiceViews())[code := Suffix(old(ServiceViews())[code] + [line], perServiceCapacity)]
    {
      hide Filled, Retained, Suffix, CircularBuffer.Valid, CircularBuffer.Contents;
      perService[code].Push(line);
      assert forall c :: c in perService && c != code ==>
        perService[c].Valid() && perService[c].Contents() == old(perService[c].Contents());
    }

    method PushToService(line: Line)
      requires Apart() && AllValid() && Capacities(perServiceCapacity, globalCapacity) && perServiceCapacity > 0
      modifies this`perService, this`rings, this`slots, rings, slots
      ensures Apart() && AllValid() && Capacities(perServiceCapacity, globalCapacity)
          && GlobalView() == old(GlobalView())
      ensures ServiceViews() == Shown(old(ServiceViews()), line, perServiceCapacity)
      ensures fresh(rings - old(rings)) && fresh(slots - old(slots))
    {
      hide Suffix, Filled, Retained, CircularBuffer.Contents, CircularBuffer.Valid, LogRingBuffer.AllValid,
        LogRingBuffer.Apart;
      hide LogRingBuffer.Capacities;
      hide LogRingBuffer.GlobalView, LogRingBuffer.ServiceViews;
      EnsureRing(line.code);
      Owned();
      PushService(line.code, line);
    }

    method PushBoth(line: Line)
      requires Apart() && AllValid() && Capacities(perServiceCapacity, globalCapacity) && perServiceCapacity > 0
      modifies this`perService, this`rings, this`slots, rings, slots
      ensures Apart() && AllValid() && Capacities(perServiceCapacity, globalCapacity)
      ensures GlobalView() == Suffix(old(GlobalView()) + [line], globalCapacity)
      ensures ServiceViews() == Shown(old(ServiceViews()), line, perServiceCapacity)
      ensures fresh(rings - old(rings)) && fresh(slots - old(slots))
    {
      hide Suffix, Filled, Retained, CircularBuffer.Contents, CircularBuffer.Valid, LogRingBuffer.AllValid,
        LogRingBuffer.Apart;
      hide LogRingBuffer.Capacities;
      hide LogRingBuffer.GlobalView, LogRingBuffer.ServiceViews, Shown;
      Owned();
      PushGlobal(line);
      PushToService(line);
    }

    method Append(code: string, channel: string, ts: int, level: Option<string>, text: string) returns (buffered: Line)
      requires Valid()
      modifies this, rings, slots
      ensures Valid() && history == old(history) + [buffered]
      ensures buffered == Line(|old(history)| + 1, code, channel, ts, level, text)
      ensures GlobalView() == Suffix(old(GlobalView()) + [buffered], globalCapacity)
      ensures ServiceViews() == Shown(old(ServiceViews()), buffered, perServiceCapacity)
      ensures fresh(rings - old(rings)) && fresh(slots - old(slots))
      ensures globalCapacity == old(globalCapacity) && perServiceCapacity == old(perServiceCapacity)
    {
      hide Views, Suffix, Filled, Retained, Numbered, Shown;
      buffered := Line(nextId, code, channel, ts, level, text);
      ViewsAppend(GlobalView(), ServiceViews(), history, buffered, globalCapacity, perServiceCapacity);
      NumberedAppend(history, buffered);
      PushBoth(buffered);
      nextId, history := nextId + 1, history + [buffered];
    }

    method ResizeOwned(code: string, capacity: nat)
      requires Apart() && code in perService && perService[code].Valid() && capacity > 0
      modifies perService[code], this`slots
      ensures Apart() && fresh(slots - old(slots)) && old(slots) <= slots
      ensures perService[code].Valid() && perService[code].capacity == capacity
      ensures perService[code].Contents() == Suffix(old(perService[code].Contents()), capacity)
    {
      hide Suffix, Filled, Retained, CircularBuffer.Valid, CircularBuffer.Contents;
      perService[code].Resize(capacity);
      slots := slots + {perService[code].entries};
    }

    lemma OtherRings(code: string)
      requires Apart() && code in perService
      ensures perService[code] != globalLines
      ensures forall c :: c in perService && c != code ==> perService[c] != perService[code]
    {
    }

    method ResizeService(code: string, capacity: nat)
      requires Apart() && AllValid() && capacity > 0 && code in perService
      modifies perService[code], this`slots
      ensures Apart() && AllValid() && fresh(slots - old(slots))
      ensures GlobalView() == old(GlobalView()) && globalLines.capacity == old(globalLines.capacity)
      ensures perService[code].capacity == capacity
      ensures ServiceViews() == old(ServiceViews())[code := Suffix(old(ServiceViews())[code], capacity)]
      ensures forall c :: c in perService && c != code ==> perService[c].capacity == old(perService[c].capacity)
    {
      hide Suffix, Filled, Retained, CircularBuffer.Valid, CircularBuffer.Contents, LogRingBuffer.Apart;
      OtherRings(code);
      ResizeOwned(code, capacity);
    }

    /** Every ring of a service resized; the rings themselves stay. */
    method ResizeServices(capacity: nat)
      requires Apart() && AllValid() && capacity > 0
      modifies perService.Values, this`slots
      ensures Apart() && AllValid() && fresh(slots - old(slots))
      ensures GlobalView() == old(GlobalView()) && Capacities(capacity, old(globalLines.capacity))
      ensures ServiceViews() == Resized(old(ServiceViews()), capacity)
    {
      hide Suffix, Filled, Retained, CircularBuffer.Valid, CircularBuffer.Contents, LogRingBuffer.Apart,
        LogRingBuffer.AllValid;
      hide LogRingBuffer.GlobalView, LogRingBuffer.ServiceViews, Partly;
      var left := perService.Keys;
      ghost var views := ServiceViews();
      ServiceCodes();
      NonePartly(views, left, capacity);
      while left != {}
        invariant left <= perService.Keys == views.Keys && Apart() && AllValid() && fresh(slots - old(slots))
        invariant GlobalView() == old(GlobalView()) && globalLines.capacity == old(globalLines.capacity)
        invariant ServiceViews() == Partly(views, left, capacity)
        invariant forall c :: c in perService && c !in left ==> perService[c].capacity == capacity
        decreases left
      {
        var code :| code in left;
        PartlyStep(views, left, code, capacity);
        ResizeService(code, capacity);
        left := left - {code};
      }
      AllPartly(views, capacity);
    }

    lemma ServiceCodes()
      requires Apart() && AllValid()
      ensures ServiceViews().Keys == perService.Keys
    {
    }

    method ResizeGlobal(capacity: nat)
      requires Apart() && AllValid() && capacity > 0
      modifies globalLines, this`slots
      ensures Apart() && AllValid() && fresh(slots - old(slots)) && globalLines.capacity == capacity
      ensures GlobalView() == Suffix(old(GlobalView()), capacity)
      ensures ServiceViews() == old(ServiceViews())
    {
      hide Suffix, Filled, Retained, CircularBuffer.Valid, CircularBuffer.Contents;
      globalLines.Resize(capacity);
      slots := slots + {globalLines.entries};
    }

    method ResizeRings(perServiceCapacity: nat, globalCapacity: nat)
      requires Apart() && AllValid() && perServiceCapacity > 0 && globalCapacity > 0
      modifies rings, this`slots
      ensures Apart() && AllValid() && Capacities(perServiceCapacity, globalCapacity) && fresh(slots - old(slots))
      ensures GlobalView() == Suffix(old(GlobalView()), globalCapacity)
      ensures ServiceViews() == Resized(old(ServiceViews()), perServiceCapacity)
    {
      hide Suffix, Filled, Retained, CircularBuffer.Valid, CircularBuffer.Contents, LogRingBuffer.Apart,
        LogRingBuffer.AllValid;
      hide LogRingBuffer.GlobalView, LogRingBuffer.ServiceViews, Resized, LogRingBuffer.Capacities;
      Owned();
      ResizeGlobal(globalCapacity);
      Owned();
      ResizeServices(perServiceCapacity);
    }

    /** Other capacities for both kinds of ring; shrinking drops the oldest lines. */
    method Configure(perServiceCapacity: nat, globalCapacity: nat)
      requires Valid() && perServiceCapacity > 0 && globalCapacity > 0
      modifies this`perServiceCapacity, this`globalCapacity, this`slots, rings
      ensures Valid() && history == old(history) && fresh(slots - old(slots))
      ensures GlobalView() == Suffix(old(GlobalView()), globalCapacity)
      ensures ServiceViews() == Resized(old(ServiceViews()), perServiceCapacity)
      ensures this.globalCapacity == globalCapacity && this.perServiceCapacity == perServiceCapacity
    {
      hide Views, Suffix, Numbered, Resized, Filled, Retained, CircularBuffer.Valid, CircularBuffer.Contents;
      hide LogRingBuffer.Apart, LogRingBuffer.AllValid, LogRingBuffer.GlobalView, LogRingBuffer.ServiceViews;
      hide LogRingBuffer.Capacities;
      ViewsResize(GlobalView(), ServiceViews(), history, globalCapacity, perServiceCapacity);
      ResizeRings(perServiceCapacity, globalCapacity);
      this.perServiceCapacity, this.globalCapacity := perServiceCapacity, globalCapacity;
    }

    /** Everything is forgotten, and numbering starts again. */
    method Clear()
      requires Valid()
      modifies this
      ensures Valid() && history == [] && GlobalView() == [] && ServiceViews() == map[]
      ensures fresh(rings) && fresh(slots)
    {
      hide Views, Filled, Retained, Numbered, CircularBuffer.Valid, CircularBuffer.Contents;
      NothingShown();
      perService, nextId, history := map[], 1, [];
      globalLines := new CircularBuffer<Line>(globalCapacity);
      rings, slots := {globalLines}, {globalLines.entries};
    }

    /** The newest lines of the wanted codes: never more than a limit of at least 1, and fewer only if no more
        are kept. */
    method Recent(codes: Option<set<string>>, limit: int) returns (result: seq<Line>)
      requires Valid()
      ensures result == RecentLines(GlobalView(), codes, limit)
      ensures forall l :: l in result ==> l in GlobalView() && (codes.None? || l.code in codes.value)
      ensures limit >= 1 ==> |result| <= limit
      ensures |result| < limit ==>
        forall l :: l in GlobalView() && (codes.None? || l.code in codes.value) ==> l in result
    {
      NewestKept(GlobalView(), (l: Line) => Wanted(codes, l), if limit < 1 then 1 else limit);
      var newest := globalLines.NewestFirstValues();
      result := TakeWanted(newest, codes, limit);
    }

    /** The newest lines of the service and nothing else: never more than a limit of at least 0, and fewer
        only if no more are kept. */
    method RecentForService(code: string, limit: int) returns (result: seq<Line>)
      requires Valid()
      ensures result == if code in ServiceViews() then SliceTo(NewestFirst(ServiceViews()[code]), limit) else []
      ensures result <= NewestFirst(OfCode(history, code))
      ensures limit >= 0 ==> |result| <= limit
      ensures |result| < limit && code in ServiceViews() ==> |result| == |ServiceViews()[code]|
      ensures forall l :: l in result ==> l.code == code
    {
      hide Views, Filled, Retained;
      ServiceViewIsNewest(GlobalView(), ServiceViews(), history, code, limit);
      result := [];
      if code in perService {
        var newest := perService[code].NewestFirstValues();
        result := SliceTo(newest, limit);
      }
    }
  }

  /** The loop of `recent`, which checks its limit after it took a line. */
  method TakeWanted(newest: seq<Line>, codes: Option<set<string>>, limit: int) returns (result: seq<Line>)
    ensures result == Take(Filter(newest, (l: Line) => Wanted(codes, l)), if limit < 1 then 1 else limit)
  {
    result := [];
    var wanted := (l: Line) => Wanted(codes, l);
    var most := if limit < 1 then 1 else limit;
    for i := 0 to |newest|
      invariant result == Filter(newest[..i], wanted) && |result| < most
    {
      assert newest[..i + 1][..i] == newest[..i];
      if !Wanted(codes, newest[i]) {
        continue;
      }
      result := result + [newest[i]];
      if |result| >= limit {
        assert newest == newest[..i + 1] + newest[i + 1..];
        FilterConcat(newest[..i + 1], newest[i + 1..], wanted);
        return;
      }
    }
    assert newest[..|newest|] == newest;
  }

  /** The lines of the services after one more. */
  function Shown(views: map<string, seq<Line>>, line: Line, capacity: nat): map<string, seq<Line>> {
    views[line.code := Suffix((if line.code in views then views[line.code] else []) + [line], capacity)]
  }

  // ----- Both views show one history -----

  predicate Numbered(history: seq<Line>) {
    forall i :: 0 <= i < |history| ==> history[i].id == i + 1
  }

  ghost predicate Views(global: seq<Line>, perService: map<string, seq<Line>>, history: seq<Line>) {
    && IsSuffix(global, history)
    && (forall c :: c in perService ==> IsSuffix(perService[c], OfCode(history, c)))
    && (forall l :: l in history ==> l.code in perService)
  }

  lemma NothingShown()
    ensures Numbered([]) && Views([], map[], [])
  {
  }

  function Resized(perService: map<string, seq<Line>>, capacity: nat): map<string, seq<Line>> {
    map c | c in perService :: Suffix(perService[c], capacity)
  }

  lemma OfCodeSnoc(history: seq<Line>, line: Line, c: string)
    ensures OfCode(history + [line], c) == OfCode(history, c) + if line.code == c then [line] else []
  {
    assert (history + [line])[..|history|] == history;
  }

  lemma SuffixOfSame<T>(whole: seq<T>)
    ensures IsSuffix([], whole)
  {
  }

  lemma {:induction false} ViewsAppend(global: seq<Line>, perService: map<string, seq<Line>>, history: seq<Line>,
                    line: Line, globalCapacity: nat, serviceCapacity: nat)
    requires Views(global, perService, history)
    ensures Views(Suffix(global + [line], globalCapacity), Shown(perService, line, serviceCapacity), history + [line])
  {
    hide IsSuffix, Filter, Suffix;
    var lines := if line.code in perService then perService[line.code] else [];
    var perService' := perService[line.code := Suffix(lines + [line], serviceCapacity)];
    SuffixPush(global, history, line, globalCapacity);
    forall c | c in perService' ensures IsSuffix(perService'[c], OfCode(history + [line], c)) {
      OfCodeSnoc(history, line, c);
      if c == line.code {
        SuffixOfSame(OfCode(history, c));
        SuffixPush(lines, OfCode(history, c), line, serviceCapacity);
      } else {
        assert OfCode(history, c) + [] == OfCode(history, c);
      }
    }
  }

  /** The views while the rings of `left` are still to be resized. */
  function Partly(views: map<string, seq<Line>>, left: set<string>, capacity: nat): map<string, seq<Line>> {
    map c | c in views :: if c in left then views[c] else Suffix(views[c], capacity)
  }

  lemma NonePartly(views: map<string, seq<Line>>, left: set<string>, capacity: nat)
    requires left == views.Keys
    ensures Partly(views, left, capacity) == views
  {
  }

  lemma PartlyStep(views: map<string, seq<Line>>, left: set<string>, code: string, capacity: nat)
    requires code in left && left <= views.Keys
    ensures code in Partly(views, left, capacity)
    ensures Partly(views, left, capacity)[code := Suffix(Partly(views, left, capacity)[code], capacity)]
         == Partly(views, left - {code}, capacity)
  {
    hide Suffix;
  }

  lemma AllPartly(views: map<string, seq<Line>>, capacity: nat)
    ensures Partly(views, {}, capacity) == Resized(views, capacity)
  {
    hide Suffix;
  }

  lemma NumberedAppend(history: seq<Line>, line: Line)
    requires Numbered(history) && line.id == |history| + 1
    ensures Numbered(history + [line])
  {
  }

  lemma ViewsResize(global: seq<Line>, perService: map<string, seq<Line>>, history: seq<Line>, globalCapacity: nat,
                    serviceCapacity: nat)
    requires Views(global, perService, history)
    ensures Views(Suffix(global, globalCapacity), Resized(perService, serviceCapacity), history)
  {
    hide IsSuffix, Filter, Suffix;
    SuffixIsSuffix(global, history, globalCapacity);
    forall c | c in perService ensures IsSuffix(Suffix(perService[c], serviceCapacity), OfCode(history, c)) {
      SuffixIsSuffix(perService[c], OfCode(history, c), serviceCapacity);
    }
  }

  lemma {:induction false} FilterNewestFirst<T>(s: seq<T>, keep: T -> bool)
    ensures Filter(NewestFirst(s), keep) == NewestFirst(Filter(s, keep))
    decreases |s|
  {
    if s == [] {
      assert NewestFirst(s) == [];
    } else {
      var front, last := s[..|s| - 1], s[|s| - 1];
      FilterNewestFirst(front, keep);
      assert NewestFirst(s) == [last] + NewestFirst(front);
      FilterConcat([last], NewestFirst(front), keep);
      assert [last][..0] == [];
      assert Filter([last], keep) == if keep(last) then [last] else [];
    }
  }

  lemma {:induction false} FilterKeeps<T>(s: seq<T>, keep: T -> bool)
    ensures forall x :: x in Filter(s, keep) ==> keep(x)
    decreases |s|
  {
    if s != [] {
      FilterKeeps(s[..|s| - 1], keep);
    }
  }

  lemma ServiceViewIsNewest(global: seq<Line>, perService: map<string, seq<Line>>, history: seq<Line>, code: string,
      limit: int)
    requires Views(global, perService, history)
    ensures var shown := if code in perService then SliceTo(NewestFirst(perService[code]), limit) else [];
      shown <= NewestFirst(OfCode(history, code)) && forall l :: l in shown ==> l.code == code
  {
    hide Filter;
    FilterKeeps(history, (l: Line) => l.code == code);
    if code in perService {
      var shown, all := SliceTo(NewestFirst(perService[code]), limit), OfCode(history, code);
      assert NewestFirst(perService[code]) <= NewestFirst(all);
      assert shown <= NewestFirst(all);
      PrefixMembers(shown, NewestFirst(all));
      SameMembers(all);
    }
  }

  lemma PrefixMembers<T>(a: seq<T>, b: seq<T>)
    requires a <= b
    ensures forall x :: x in a ==> x in b
  {
    forall x | x in a ensures x in b {
      var i :| 0 <= i < |a| && a[i] == x;
      assert b[i] == x;
    }
  }

  /** For any code the global view restricted to it and the view of the service show the same
      history: one is a prefix of the other, newest first, whatever was pushed and resized. */
  lemma {:induction false} ViewsAgree(global: seq<Line>, perService: map<string, seq<Line>>, history: seq<Line>,
                                      code: string, m: int, n: int)
    requires Views(global, perService, history) && code in perService
    ensures var a, b := RecentLines(global, Some({code}), m), SliceTo(NewestFirst(perService[code]), n);
      && (a <= b || b <= a)
      && a <= NewestFirst(OfCode(history, code)) && b <= NewestFirst(OfCode(history, code))
  {
    hide Filter, NewestFirst, IsSuffix, SliceTo;
    var own := (l: Line) => l.code == code;
    OwnLines(global, code);
    FilterSuffix(global, history, own);
    SuffixIsPrefixNewestFirst(Filter(global, own), OfCode(history, code), if m < 1 then 1 else m);
    ServiceViewIsNewest(global, perService, history, code, n);
  }

  lemma OwnLines(global: seq<Line>, code: string)
    ensures Filter(NewestFirst(global), (l: Line) => Wanted(Some({code}), l))
         == NewestFirst(Filter(global, (l: Line) => l.code == code))
  {
    hide Filter, NewestFirst;
    var wanted := (l: Line) => Wanted(Some({code}), l);
    FilterNewestFirst(global, wanted);
    FilterSame(global, wanted, (l: Line) => l.code == code);
  }

  lemma SuffixIsPrefixNewestFirst<T>(s: seq<T>, whole: seq<T>, n: int)
    requires IsSuffix(s, whole)
    ensures Take(NewestFirst(s), n) <= NewestFirst(whole)
  {
  }

  lemma {:induction false} FilterSame<T>(s: seq<T>, p: T -> bool, q: T -> bool)
    requires forall x :: x in s ==> p(x) == q(x)
    ensures Filter(s, p) == Filter(s, q)
    decreases |s|
  {
    if s != [] {
      FilterSame(s[..|s| - 1], p, q);
    }
  }

  /** Whatever is shown, the ids strictly decrease. */
  lemma {:induction false} IdsDecrease(retained: seq<Line>, history: seq<Line>, codes: Option<set<string>>, limit: int)
    requires Numbered(history) && IsSuffix(retained, history)
    ensures var shown := RecentLines(retained, codes, limit);
      forall i, j :: 0 <= i < j < |shown| ==> shown[i].id > shown[j].id
  {
    hide Filter;
    var wanted := (l: Line) => Wanted(codes, l);
    FilterNewestFirst(retained, wanted);
    FilterAscends(retained, wanted);
  }

  predicate Ascending(s: seq<Line>) {
    forall i, j :: 0 <= i < j < |s| ==> s[i].id < s[j].id
  }

  lemma {:induction false} FilterAscends(s: seq<Line>, keep: Line -> bool)
    requires Ascending(s)
    ensures Ascending(Filter(s, keep)) && forall l :: l in Filter(s, keep) ==> l in s
    decreases |s|
  {
    if s != [] {
      var front, last := s[..|s| - 1], s[|s| - 1];
      FilterAscends(front, keep);
      assert s == front + [last];
      forall l | l in Filter(front, keep) ensures l.id < last.id {
        var i :| 0 <= i < |front| && front[i] == l;
        assert s[i] == l;
      }
    }
  }

  /** The global view keeps to its limit if and only if it is at least 1, or it is 0 and there is no wanted
      line: the limit is checked after a line was taken. */
  lemma LimitIsKeptIff(retained: seq<Line>, codes: Option<set<string>>, limit: int)
    ensures |RecentLines(retained, codes, limit)| <= limit
       <==> limit >= 1 || (limit == 0 && forall l :: l in retained ==> !Wanted(codes, l))
  {
    hide Filter, NewestFirst, Wanted;
    var wanted := (l: Line) => Wanted(codes, l);
    SameMembers(retained);
    NothingFiltered(NewestFirst(retained), wanted);
    assert Filter(NewestFirst(retained), wanted) == [] <==> forall l :: l in retained ==> !Wanted(codes, l);
  }

  lemma SameMembers<T>(s: seq<T>)
    ensures forall x :: x in s <==> x in NewestFirst(s)
  {
    forall x | x in s ensures x in NewestFirst(s) {
      var i :| 0 <= i < |s| && s[i] == x;
      assert NewestFirst(s)[|s| - 1 - i] == x;
    }
  }

  lemma {:induction false} NothingFiltered<T>(s: seq<T>, keep: T -> bool)
    ensures Filter(s, keep) == [] <==> forall x :: x in s ==> !keep(x)
    decreases |s|
  {
    if s != [] {
      var front, last := s[..|s| - 1], s[|s| - 1];
      NothingFiltered(front, keep);
      assert s == front + [last];
    }
  }

  /** A limit of 0 still shows one line of the global view, and none of a service. */
  lemma ZeroLimitShowsOneLine(line: Line)
    ensures RecentLines([line], None, 0) == [line] && SliceTo(NewestFirst([line]), 0) == []
  {
    assert NewestFirst([line]) == [line] && [line][..0] == [];
    assert Filter([line], (l: Line) => Wanted(None, l)) == [line];
  }

  /** What is taken is wanted and kept, not more than the limit, and less only if it is all. */
  lemma NewestKept<T>(s: seq<T>, keep: T -> bool, limit: int)
    ensures var taken := Take(Filter(NewestFirst(s), keep), limit);
      && (forall x :: x in taken ==> x in s && keep(x))
      && (if limit <= 0 then taken == [] else |taken| <= limit)
      && (|taken| < limit ==> forall x :: x in s && keep(x) ==> x in taken)
  {
    hide NewestFirst, Take;
    SameMembers(s);
    FilterMembers(NewestFirst(s), keep);
    var wanted := Filter(NewestFirst(s), keep);
    forall x | x in Take(wanted, limit) ensures x in s && keep(x) {
      TakeMembers(wanted, limit);
      assert x in NewestFirst(s);
    }
    TakeSize(wanted, limit);
    TakeMembers(Filter(NewestFirst(s), keep), limit);
  }

  lemma TakeMembers<T>(s: seq<T>, limit: int)
    ensures forall x :: x in Take(s, limit) ==> x in s
    ensures |Take(s, limit)| < limit ==> Take(s, limit) == s
  {
  }

  lemma TakeSize<T>(s: seq<T>, limit: int)
    ensures if limit <= 0 then Take(s, limit) == [] else |Take(s, limit)| <= limit
  {
  }

  lemma {:induction false} FilterMembers<T>(s: seq<T>, keep: T -> bool)
    ensures forall x :: x in Filter(s, keep) <==> x in s && keep(x)
    decreases |s|
  {
    if s != [] {
      FilterMembers(s[..|s| - 1], keep);
      assert s == s[..|s| - 1] + [s[|s| - 1]];
    }
  }
}
