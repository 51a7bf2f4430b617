// The bounded selection of newest log rows (src/log/query-engine.ts): a min-heap on the timestamp
// that never holds more than `limit` rows, and the merge of two such selections.
module NewestRows {

  datatype Row = Row(code: string, ts: int, level: string, channel: string, line: string)

  function Times(rows: seq<Row>): (ts: seq<int>)
    ensures |ts| == |rows| && forall i :: 0 <= i < |rows| ==> ts[i] == rows[i].ts
  {
    seq(|rows|, i requires 0 <= i < |rows| => rows[i].ts)
  }

  function Size(limit: int, available: nat): nat {
    if limit <= 0 then 0 else if limit < available then limit else available
  }

  // ----- Descending lists -----

  predicate Descending(ts: seq<int>) {
    forall i, j :: 0 <= i < j < |ts| ==> ts[i] >= ts[j]
  }

  function InsertNewest(row: Row, rows: seq<Row>): (r: seq<Row>)
    ensures |r| == |rows| + 1
  {
    if rows == [] || row.ts >= rows[0].ts then [row] + rows else [rows[0]] + InsertNewest(row, rows[1..])
  }

  /** `sort((left, right) => right.ts - left.ts)`: newest first, equal timestamps in place. */
  function SortNewest(rows: seq<Row>): (r: seq<Row>)
    ensures |r| == |rows|
  {
    if rows == [] then [] else InsertNewest(rows[0], SortNewest(rows[1..]))
  }

  lemma DescendingCons(x: int, ts: seq<int>)
    requires Descending(ts) && forall t :: t in multiset(ts) ==> t <= x
    ensures Descending([x] + ts)
  {
    assert forall i :: 0 <= i < |ts| ==> ts[i] in multiset(ts);
    assert forall i :: 1 <= i < |[x] + ts| ==> ([x] + ts)[i] == ts[i - 1];
  }

  lemma HeadIsLargest(ts: seq<int>)
    requires Descending(ts) && ts != []
    ensures forall t :: t in multiset(ts) ==> t <= ts[0]
    ensures Descending(ts[1..]) && multiset(ts) == multiset(ts[1..]) + multiset{ts[0]}
  {
    assert ts == [ts[0]] + ts[1..];
    forall t | t in multiset(ts) ensures t <= ts[0] {
      assert t in ts;
    }
  }

  lemma TimesCons(row: Row, rows: seq<Row>)
    ensures Times([row] + rows) == [row.ts] + Times(rows)
    ensures multiset(Times([row] + rows)) == multiset(Times(rows)) + multiset{row.ts}
  {
    assert Times([row] + rows) == [row.ts] + Times(rows);
  }

  lemma MultisetCancel<T>(p: multiset<T>, q: multiset<T>, x: T)
    requires p + multiset{x} == q + multiset{x}
    ensures p == q
  {
    assert p == (p + multiset{x}) - multiset{x};
    assert q == (q + multiset{x}) - multiset{x};
  }

  lemma {:induction false} InsertNewestPermutes(row: Row, rows: seq<Row>)
    ensures multiset(InsertNewest(row, rows)) == multiset(rows) + multiset{row}
    ensures multiset(Times(InsertNewest(row, rows))) == multiset(Times(rows)) + multiset{row.ts}
  {
    hide Times;
    if rows == [] || row.ts >= rows[0].ts {
      TimesCons(row, rows);
    } else {
      var rest := rows[1..];
      assert rows == [rows[0]] + rest;
      InsertNewestPermutes(row, rest);
      TimesCons(rows[0], rest);
      TimesCons(rows[0], InsertNewest(row, rest));
    }
  }

  lemma TailBelowHead(rows: seq<Row>)
    requires rows != [] && Descending(Times(rows))
    ensures Descending(Times(rows[1..]))
    ensures forall t :: t in multiset(Times(rows)) ==> t <= rows[0].ts
    ensures forall t :: t in multiset(Times(rows[1..])) ==> t <= rows[0].ts
  {
    HeadIsLargest(Times(rows));
    assert Times(rows)[1..] == Times(rows[1..]);
  }

  lemma {:induction false} InsertNewestSorts(row: Row, rows: seq<Row>)
    requires Descending(Times(rows))
    ensures Descending(Times(InsertNewest(row, rows)))
  {
    hide Descending, Times;
    if rows == [] {
      TimesCons(row, rows);
      SingleDescends(row.ts);
      NoTimes();
      assert [row.ts] + [] == [row.ts];
    } else {
      TailBelowHead(rows);
      if row.ts >= rows[0].ts {
        TimesCons(row, rows);
        DescendingCons(row.ts, Times(rows));
      } else {
        InsertNewestSorts(row, rows[1..]);
        InsertNewestPermutes(row, rows[1..]);
        TimesCons(rows[0], InsertNewest(row, rows[1..]));
        DescendingCons(rows[0].ts, Times(InsertNewest(row, rows[1..])));
      }
    }
  }

  lemma NoTimes()
    ensures Times([]) == []
  {
  }

  lemma SingleDescends(x: int)
    ensures Descending([x]) && Descending([])
  {
  }

  lemma {:induction false} SortNewestSorts(rows: seq<Row>)
    ensures Descending(Times(SortNewest(rows)))
    ensures multiset(SortNewest(rows)) == multiset(rows) && |SortNewest(rows)| == |rows|
  {
    if rows != [] {
      hide Times, Descending, InsertNewest;
      SortNewestSorts(rows[1..]);
      InsertNewestSorts(rows[0], SortNewest(rows[1..]));
      InsertNewestPermutes(rows[0], SortNewest(rows[1..]));
      assert rows == [rows[0]] + rows[1..];
    }
    assert |multiset(SortNewest(rows))| == |SortNewest(rows)|;
  }

  lemma TimesConcat(a: seq<Row>, b: seq<Row>)
    ensures Times(a + b) == Times(a) + Times(b)
  {
  }

  lemma TakeOut<T>(s: seq<T>, j: nat)
    requires j < |s|
    ensures multiset(s) == multiset(s[..j] + s[j + 1..]) + multiset{s[j]}
  {
    assert s == s[..j] + [s[j]] + s[j + 1..];
  }

  lemma FindMember<T>(s: seq<T>, x: T) returns (j: nat)
    requires x in multiset(s)
    ensures j < |s| && s[j] == x
  {
    assert x in s;
    j :| 0 <= j < |s| && s[j] == x;
  }

  lemma NoMembers<T>(s: seq<T>)
    requires multiset(s) == multiset{}
    ensures s == []
  {
    assert |multiset(s)| == |s|;
  }

  /** The timestamps depend only on the rows, not on their order. */
  lemma {:induction false} TimesPermuted(a: seq<Row>, b: seq<Row>)
    requires multiset(a) == multiset(b)
    ensures multiset(Times(a)) == multiset(Times(b))
    decreases |a|
  {
    hide Times;
    if a == [] {
      NoMembers(b);
    } else {
      TakeOut(a, 0);
      var j := FindMember(b, a[0]);
      TakeOut(b, j);
      var a', b' := a[..0] + a[1..], b[..j] + b[j + 1..];
      MultisetCancel(multiset(a'), multiset(b'), a[0]);
      TimesPermuted(a', b');
      TimesTakeOut(a, 0);
      TimesTakeOut(b, j);
    }
  }

  lemma TimesTakeOut(s: seq<Row>, j: nat)
    requires j < |s|
    ensures multiset(Times(s)) == multiset(Times(s[..j] + s[j + 1..])) + multiset{s[j].ts}
  {
    var ts := Times(s);
    TakeOut(ts, j);
    assert Times(s[..j] + s[j + 1..]) == ts[..j] + ts[j + 1..];
  }

  /** A multiset has one descending list. */
  lemma {:induction false} DescendingIsUnique(a: seq<int>, b: seq<int>)
    requires Descending(a) && Descending(b) && multiset(a) == multiset(b)
    ensures a == b
    decreases |a|
  {
    if a == [] {
      NoMembers(b);
    } else if b == [] {
      NoMembers(a);
    } else {
      hide Descending;
      HeadIsLargest(a);
      HeadIsLargest(b);
      assert a[0] in multiset(b) && b[0] in multiset(a);
      MultisetCancel(multiset(a[1..]), multiset(b[1..]), a[0]);
      DescendingIsUnique(a[1..], b[1..]);
      assert a == [a[0]] + a[1..] && b == [b[0]] + b[1..];
    }
  }

  // ----- The newest `limit` of a collection -----

  /** `kept` holds as many of `all` as the limit allows, none older than one that is left out. */
  ghost predicate Newest(kept: multiset<int>, all: multiset<int>, limit: int) {
    && kept <= all && |kept| == Size(limit, |all|)
    && forall k, r :: k in kept && r in all - kept ==> k >= r
  }

  /** Sort-all-then-take-limit is the only such selection, as timestamps go. */
  lemma NewestIsPrefix(kept: seq<int>, all: seq<int>, limit: int)
    requires Descending(kept) && Descending(all) && Newest(multiset(kept), multiset(all), limit)
    ensures kept == all[..Size(limit, |all|)]
  {
    hide Descending;
    assert |multiset(kept)| == |kept| && |multiset(all)| == |all|;
    var rest := WithoutAll(all, kept);
    DescendingConcat(kept, rest);
    assert multiset(kept + rest) == multiset(all);
    DescendingIsUnique(kept + rest, all);
  }

  lemma DescendingConcat(a: seq<int>, b: seq<int>)
    requires Descending(a) && Descending(b)
    requires forall x, y :: x in multiset(a) && y in multiset(b) ==> x >= y
    ensures Descending(a + b)
  {
    assert forall i :: 0 <= i < |a| ==> a[i] in multiset(a);
    assert forall i :: 0 <= i < |b| ==> b[i] in multiset(b);
  }

  lemma WithoutOne(all: seq<int>, x: int) returns (rest: seq<int>)
    requires Descending(all) && x in multiset(all)
    ensures Descending(rest) && multiset(rest) == multiset(all) - multiset{x}
  {
    var j := FindMember(all, x);
    TakeOut(all, j);
    rest := all[..j] + all[j + 1..];
  }

  lemma MultisetStep(all: multiset<int>, others: multiset<int>, x: int)
    requires others + multiset{x} <= all
    ensures others <= all && x in all - others
    ensures (all - others) - multiset{x} == all - (others + multiset{x})
  {
    assert all[x] >= (others + multiset{x})[x] == others[x] + 1;
  }

  /** A descending list without some of its elements. */
  lemma {:induction false} WithoutAll(all: seq<int>, some: seq<int>) returns (rest: seq<int>)
    requires Descending(all) && multiset(some) <= multiset(all)
    ensures Descending(rest) && multiset(rest) == multiset(all) - multiset(some)
    decreases |some|
  {
    hide Descending;
    if some == [] {
      rest := all;
    } else {
      var others := some[1..];
      assert some == [some[0]] + others;
      MultisetStep(multiset(all), multiset(others), some[0]);
      rest := WithoutAll(all, others);
      rest := WithoutOne(rest, some[0]);
    }
  }

  lemma SubsetSameSize(a: multiset<int>, b: multiset<int>)
    requires a <= b && |a| == |b|
    ensures a == b
  {
    assert b == a + (b - a);
  }

  /** Room left: the row is kept. */
  lemma NewestPush(kept: multiset<int>, all: multiset<int>, t: int, limit: int)
    requires Newest(kept, all, limit) && |kept| < limit
    ensures Newest(kept + multiset{t}, all + multiset{t}, limit)
  {
    SubsetSameSize(kept, all);
  }

  /** No room, and nothing kept is older: the row is left out. */
  lemma NewestSkip(kept: multiset<int>, all: multiset<int>, t: int, limit: int)
    requires Newest(kept, all, limit) && limit <= |kept|
    requires forall k :: k in kept ==> k >= t
    ensures Newest(kept, all + multiset{t}, limit)
  {
    assert (all + multiset{t}) - kept == (all - kept) + multiset{t};
  }

  /** No room, and the row is newer than the oldest one kept: it takes its place. */
  lemma NewestReplace(kept: multiset<int>, all: multiset<int>, oldest: int, t: int, limit: int)
    requires Newest(kept, all, limit) && limit <= |kept| && oldest in kept && oldest < t
    requires forall k :: k in kept ==> k >= oldest
    ensures Newest(kept - multiset{oldest} + multiset{t}, all + multiset{t}, limit)
  {
    var kept' := kept - multiset{oldest} + multiset{t};
    assert (all + multiset{t}) - kept' == (all - kept) + multiset{oldest};
    forall k | k in kept' ensures k >= oldest {
      assert k == t || k in kept;
    }
    forall k, r | k in kept' && r in all - kept ensures k >= r {
      assert oldest >= r;
    }
  }

  /** The first rows of a descending list are its newest ones. */
  lemma PrefixIsNewest(all: seq<int>, limit: int)
    requires Descending(all)
    ensures Newest(multiset(all[..Size(limit, |all|)]), multiset(all), limit)
  {
    var n := Size(limit, |all|);
    var first, rest := all[..n], all[n..];
    assert all == first + rest;
    assert multiset(all) - multiset(first) == multiset(rest);
    assert |multiset(all)| == |all| && |multiset(first)| == n;
    forall k, r | k in multiset(first) && r in multiset(rest) ensures k >= r {
      assert k in first && r in rest;
    }
  }

  /** Merging: the newest of two selections are the newest of the two collections together. */
  lemma NewestOfNewest(a: multiset<int>, b: multiset<int>, allA: multiset<int>, allB: multiset<int>,
                       kept: multiset<int>, limit: int)
    requires Newest(a, allA, limit) && Newest(b, allB, limit) && Newest(kept, a + b, limit)
    ensures Newest(kept, allA + allB, limit)
  {
    assert (allA + allB) - kept == (allA - a) + (allB - b) + ((a + b) - kept);
    forall k, r | k in kept && r in (allA + allB) - kept ensures k >= r {
      if r in allA - a {
        KeptBeatsRejected(a, b, allA, kept, k, r, limit);
      } else if r in allB - b {
        assert a + b == b + a;
        KeptBeatsRejected(b, a, allB, kept, k, r, limit);
      }
    }
    NewestSize(a, b, allA, allB, limit);
  }

  lemma NewestSize(a: multiset<int>, b: multiset<int>, allA: multiset<int>, allB: multiset<int>, limit: int)
    requires Newest(a, allA, limit) && Newest(b, allB, limit)
    ensures Size(limit, |a + b|) == Size(limit, |allA + allB|)
  {
  }

  lemma KeptBeatsRejected(a: multiset<int>, b: multiset<int>, allA: multiset<int>, kept: multiset<int>, k: int, r: int,
                          limit: int)
    requires Newest(a, allA, limit) && Newest(kept, a + b, limit)
    requires k in kept && r in allA - a
    ensures k >= r
  {
    assert allA == a + (allA - a);
    assert |allA - a| > 0;
    assert |a| == Size(limit, |allA|) == limit;
    if k < r {
      AllKept(a, b, kept, k, r);
      Larger(a + multiset{k}, kept);
    }
  }

  /** If something older than every row of `a` is kept, then so are all rows of `a`. */
  lemma AllKept(a: multiset<int>, b: multiset<int>, kept: multiset<int>, k: int, r: int)
    requires kept <= a + b && k in kept && k < r
    requires forall x :: x in a ==> x >= r
    requires forall x :: x in (a + b) - kept ==> x <= k
    ensures a + multiset{k} <= kept
  {
    forall x ensures (a + multiset{k})[x] <= kept[x] {
      if x in a {
        assert x !in (a + b) - kept;
      }
    }
  }

  lemma Larger(a: multiset<int>, b: multiset<int>)
    requires a <= b
    ensures |a| <= |b|
  {
    assert b == a + (b - a);
  }

  // ----- The heap -----

  function Parent(i: nat): nat
    requires i > 0
  {
    (i - 1) / 2
  }

  /** A min-heap on the timestamp, `hole` aside: no row is older than its parent, and the children
      of the hole are no older than its parent. */
  ghost predicate HeapExceptUp(rows: seq<Row>, hole: nat) {
    && (forall i :: 0 < i < |rows| && i != hole ==> rows[Parent(i)].ts <= rows[i].ts)
    && (forall i :: 0 < i < |rows| && Parent(i) == hole && hole > 0 ==> rows[Parent(hole)].ts <= rows[i].ts)
  }

  ghost predicate HeapExceptDown(rows: seq<Row>, hole: nat) {
    && (forall i :: 0 < i < |rows| && Parent(i) != hole ==> rows[Parent(i)].ts <= rows[i].ts)
    && (forall i :: 0 < i < |rows| && Parent(i) == hole && hole > 0 ==> rows[Parent(hole)].ts <= rows[i].ts)
  }

  ghost predicate Heap(rows: seq<Row>) {
    forall i :: 0 < i < |rows| ==> rows[Parent(i)].ts <= rows[i].ts
  }

  lemma {:induction false} RootIsOldest(rows: seq<Row>, i: nat)
    requires Heap(rows) && i < |rows|
    ensures rows[0].ts <= rows[i].ts
  {
    if i > 0 {
      RootIsOldest(rows, Parent(i));
    }
  }

  function Swap(rows: seq<Row>, i: nat, j: nat): seq<Row>
    requires i < |rows| && j < |rows|
  {
    rows[i := rows[j]][j := rows[i]]
  }

  lemma SwapPermutes(rows: seq<Row>, i: nat, j: nat)
    requires i < |rows| && j < |rows|
    ensures multiset(Swap(rows, i, j)) == multiset(rows)
  {
  }

  lemma SwapUp(rows: seq<Row>, k: nat)
    requires 0 < k < |rows| && HeapExceptUp(rows, k) && rows[Parent(k)].ts > rows[k].ts
    ensures HeapExceptUp(Swap(rows, Parent(k), k), Parent(k))
  {
    var p, rows' := Parent(k), Swap(rows, Parent(k), k);
    forall i | 0 < i < |rows| && i != p ensures rows'[Parent(i)].ts <= rows'[i].ts {
      assert Parent(i) == k || Parent(i) != k;
    }
    forall i | 0 < i < |rows| && Parent(i) == p && p > 0 ensures rows'[Parent(p)].ts <= rows'[i].ts {
      assert rows[Parent(p)].ts <= rows[p].ts <= rows[i].ts || i == k;
    }
  }

  lemma SwapDown(rows: seq<Row>, k: nat, child: nat)
    requires 0 < child < |rows| && Parent(child) == k && HeapExceptDown(rows, k) && rows[k].ts > rows[child].ts
    requires forall i :: 0 < i < |rows| && Parent(i) == k ==> rows[child].ts <= rows[i].ts
    ensures HeapExceptDown(Swap(rows, k, child), child)
  {
    var rows' := Swap(rows, k, child);
    forall i | 0 < i < |rows| && Parent(i) != child ensures rows'[Parent(i)].ts <= rows'[i].ts {
      assert Parent(i) == k || i == k || (rows'[i] == rows[i] && rows'[Parent(i)] == rows[Parent(i)]);
    }
    forall i | 0 < i < |rows| && Parent(i) == child ensures rows'[Parent(child)].ts <= rows'[i].ts {
      Grandchild(rows, k, child, i);
      assert rows'[i] == rows[i] && rows'[k] == rows[child];
    }
  }

  lemma Grandchild(rows: seq<Row>, k: nat, child: nat, i: nat)
    requires 0 < child < |rows| && Parent(child) == k && HeapExceptDown(rows, k) && 0 < i < |rows| && Parent(i) == child
    ensures rows[child].ts <= rows[i].ts && i != k && i != child
  {
  }

  /** `rows` are some of the inserted rows, and the newest of them. */
  ghost predicate Selects(rows: seq<Row>, inserted: seq<Row>, limit: int) {
    && multiset(rows) <= multiset(inserted)
    && Newest(multiset(Times(rows)), multiset(Times(inserted)), limit)
  }

  class ResultHeap {
    const limit: int
    var results: seq<Row>
    ghost var inserted: seq<Row>

    constructor (limit: int)
      ensures this.limit == limit && Valid() && inserted == []
    {
      this.limit, results, inserted := limit, [], [];
    }

    ghost predicate Valid()
      reads this
    {
      Heap(results) && Selects(results, inserted, limit)
    }

    method SiftUp(start: nat)
      requires start < |results| && HeapExceptUp(results, start)
      modifies this`results
      ensures Heap(results) && multiset(results) == old(multiset(results))
    {
      var index: nat := start;
      while index > 0
        invariant index < |results| && HeapExceptUp(results, index)
        invariant multiset(results) == old(multiset(results))
      {
        var parent := (index - 1) / 2;
        if results[parent].ts <= results[index].ts {
          return;
        }
        SwapPermutes(results, parent, index);
        SwapUp(results, index);
        results := Swap(results, parent, index);
        index := parent;
      }
    }

    method SiftDown(start: nat)
      requires HeapExceptDown(results, start)
      modifies this`results
      ensures Heap(results) && multiset(results) == old(multiset(results))
    {
      var index: nat := start;
      while true
        invariant HeapExceptDown(results, index)
        invariant multiset(results) == old(multiset(results))
        decreases |results| - index
      {
        var left := index * 2 + 1;
        if left >= |results| {
          return;
        }
        var right := left + 1;
        var oldestChild := if right < |results| && results[right].ts < results[left].ts then right else left;
        assert forall i :: 0 < i < |results| && Parent(i) == index ==> i == left || i == right;
        if results[index].ts <= results[oldestChild].ts {
          return;
        }
        SwapPermutes(results, index, oldestChild);
        SwapDown(results, index, oldestChild);
        results := Swap(results, index, oldestChild);
        index := oldestChild;
      }
    }

    method AddResult(row: Row)
      requires Valid()
      modifies this
      ensures Valid() && inserted == old(inserted) + [row]
    {
      hide Selects;
      inserted := inserted + [row];
      if limit <= 0 {
        SelectsNothing(results, old(inserted), row, limit);
        return;
      }
      if |results| < limit {
        SelectsPushed(results, old(inserted), row, limit);
        results := results + [row];
        var pushed := results;
        SiftUp(|results| - 1);
        SelectsPermuted(pushed, results, inserted, limit);
        return;
      }
      if results[0].ts >= row.ts {
        SelectsSkipped(results, old(inserted), row, limit);
        return;
      }
      SelectsReplaced(results, old(inserted), row, limit);
      results := results[0 := row];
      var replaced := results;
      SiftDown(0);
      SelectsPermuted(replaced, results, inserted, limit);
    }
  }

  lemma SelectsNothing(rows: seq<Row>, inserted: seq<Row>, row: Row, limit: int)
    requires Selects(rows, inserted, limit) && limit <= 0
    ensures Selects(rows, inserted + [row], limit)
  {
    TimesSnoc(inserted, row);
  }

  lemma SelectsPushed(rows: seq<Row>, inserted: seq<Row>, row: Row, limit: int)
    requires Selects(rows, inserted, limit) && |rows| < limit
    ensures Selects(rows + [row], inserted + [row], limit)
  {
    hide Newest;
    TimesSnoc(inserted, row);
    TimesSnoc(rows, row);
    NewestPush(multiset(Times(rows)), multiset(Times(inserted)), row.ts, limit);
  }

  lemma SelectsSkipped(rows: seq<Row>, inserted: seq<Row>, row: Row, limit: int)
    requires Selects(rows, inserted, limit) && Heap(rows) && limit <= |rows| && rows != [] && rows[0].ts >= row.ts
    ensures Selects(rows, inserted + [row], limit)
  {
    hide Newest;
    TimesSnoc(inserted, row);
    NothingOlder(rows);
    NewestSkip(multiset(Times(rows)), multiset(Times(inserted)), row.ts, limit);
  }

  lemma SelectsReplaced(rows: seq<Row>, inserted: seq<Row>, row: Row, limit: int)
    requires Selects(rows, inserted, limit) && Heap(rows) && limit <= |rows| && rows != [] && rows[0].ts < row.ts
    ensures Selects(rows[0 := row], inserted + [row], limit)
  {
    hide Newest;
    TimesSnoc(inserted, row);
    NothingOlder(rows);
    ReplaceRoot(rows, row);
    NewestReplace(multiset(Times(rows)), multiset(Times(inserted)), rows[0].ts, row.ts, limit);
  }

  lemma SelectsPermuted(a: seq<Row>, b: seq<Row>, inserted: seq<Row>, limit: int)
    requires Selects(a, inserted, limit) && multiset(a) == multiset(b)
    ensures Selects(b, inserted, limit)
  {
    hide Newest;
    TimesPermuted(a, b);
  }

  lemma TimesSnoc(rows: seq<Row>, row: Row)
    ensures multiset(Times(rows + [row])) == multiset(Times(rows)) + multiset{row.ts}
    ensures multiset(rows + [row]) == multiset(rows) + multiset{row}
    ensures |multiset(Times(rows))| == |rows|
  {
    assert Times(rows + [row]) == Times(rows) + [row.ts];
  }

  lemma NothingOlder(rows: seq<Row>)
    requires Heap(rows) && rows != []
    ensures rows[0].ts in multiset(Times(rows))
    ensures forall t :: t in multiset(Times(rows)) ==> t >= rows[0].ts
  {
    assert Times(rows)[0] == rows[0].ts;
    forall t | t in multiset(Times(rows)) ensures t >= rows[0].ts {
      var i := FindMember(Times(rows), t);
      RootIsOldest(rows, i);
    }
  }

  lemma ReplaceRoot(rows: seq<Row>, row: Row)
    requires rows != []
    ensures multiset(Times(rows[0 := row])) == multiset(Times(rows)) - multiset{rows[0].ts} + multiset{row.ts}
    ensures multiset(rows[0 := row]) == multiset(rows) - multiset{rows[0]} + multiset{row}
  {
    assert Times(rows[0 := row]) == Times(rows)[0 := row.ts];
  }

  lemma {:induction false} SortedSelection(selected: seq<Row>, rows: seq<Row>, limit: int)
    requires Selects(selected, rows, limit)
    ensures Selects(SortNewest(selected), rows, limit)
    ensures Times(SortNewest(selected)) == Times(SortNewest(rows))[..Size(limit, |rows|)]
  {
    hide Newest, Descending;
    var found := SortNewest(selected);
    SortNewestSorts(selected);
    SortNewestSorts(rows);
    TimesPermuted(found, selected);
    TimesPermuted(SortNewest(rows), rows);
    NewestIsPrefix(Times(found), Times(SortNewest(rows)), limit);
  }

  /** The rows that matched, newest first, at most `limit` of them: the same timestamps as sorting
      everything and taking the first `limit`. */
  method QueryJsonl(rows: seq<Row>, limit: int) returns (found: seq<Row>)
    ensures Selects(found, rows, limit)
    ensures Times(found) == Times(SortNewest(rows))[..Size(limit, |rows|)]
    ensures |found| == if limit <= 0 then 0 else if limit < |rows| then limit else |rows|
    ensures forall i, j :: 0 <= i < j < |found| ==> found[i].ts >= found[j].ts
    ensures multiset(found) <= multiset(rows)
  {
    hide SortNewest, Times, Newest, Selects, Heap, Size;
    var heap := new ResultHeap(limit);
    for i := 0 to |rows|
      invariant heap.Valid() && heap.limit == limit && heap.inserted == rows[..i]
      invariant fresh(heap)
    {
      heap.AddResult(rows[i]);
      assert rows[..i + 1] == rows[..i] + [rows[i]];
    }
    assert rows[..|rows|] == rows;
    found := SortNewest(heap.results);
    SelectionIsFound(heap.results, rows, limit);
  }

  lemma SelectionIsFound(selected: seq<Row>, rows: seq<Row>, limit: int)
    requires Selects(selected, rows, limit)
    ensures var found := SortNewest(selected);
      && Selects(found, rows, limit) && Times(found) == Times(SortNewest(rows))[..Size(limit, |rows|)]
      && |found| == (if limit <= 0 then 0 else if limit < |rows| then limit else |rows|)
      && (forall i, j :: 0 <= i < j < |found| ==> found[i].ts >= found[j].ts)
      && multiset(found) <= multiset(rows)
  {
    hide SortNewest, Times, Newest, Selects;
    var found := SortNewest(selected);
    SortedSelection(selected, rows, limit);
    SortDescends(rows);
    FoundIsCut(found, Times(SortNewest(rows)), limit);
    SelectsSome(found, rows, limit);
  }

  lemma SelectsSome(found: seq<Row>, rows: seq<Row>, limit: int)
    requires Selects(found, rows, limit)
    ensures multiset(found) <= multiset(rows)
  {
  }

  lemma FoundIsCut(found: seq<Row>, all: seq<int>, limit: int)
    requires Descending(all) && Times(found) == all[..Size(limit, |all|)]
    ensures |found| == if limit <= 0 then 0 else if limit < |all| then limit else |all|
    ensures forall i, j :: 0 <= i < j < |found| ==> found[i].ts >= found[j].ts
  {
    hide Times, Descending;
    CutIs(found, all, Size(limit, |all|));
  }

  lemma SortDescends(rows: seq<Row>)
    ensures Descending(Times(SortNewest(rows)))
  {
    SortNewestSorts(rows);
  }

  lemma CutIs(found: seq<Row>, all: seq<int>, n: nat)
    requires n <= |all| && Times(found) == all[..n] && Descending(all)
    ensures |found| == n && forall i, j :: 0 <= i < j < |found| ==> found[i].ts >= found[j].ts
  {
    hide Times, Descending;
    DescendingPrefix(all, n);
    assert |Times(found)| == |found|;
    DescendingRows(found);
  }

  lemma DescendingPrefix(ts: seq<int>, n: nat)
    requires Descending(ts) && n <= |ts|
    ensures Descending(ts[..n])
  {
  }

  // ----- Merging the two stores -----

  function MergeResults(jsonl: seq<Row>, parquet: seq<Row>, limit: int): seq<Row> {
    SortNewest(jsonl + parquet)[..Size(limit, |SortNewest(jsonl + parquet)|)]
  }

  /** A merge keeps rows of the two selections, each as often as they hold it, newest first. */
  lemma MergeKeepsRows(jsonl: seq<Row>, parquet: seq<Row>, limit: int)
    ensures var merged := MergeResults(jsonl, parquet, limit);
      && multiset(merged) <= multiset(jsonl) + multiset(parquet)
      && (forall i, j :: 0 <= i < j < |merged| ==> merged[i].ts >= merged[j].ts)
      && |merged| == if limit <= 0 then 0 else if limit < |jsonl| + |parquet| then limit else |jsonl| + |parquet|
  {
    hide SortNewest, Times;
    var both := jsonl + parquet;
    SortNewestSorts(both);
    var sorted := SortNewest(both);
    DescendingRows(sorted);
    PrefixHolds(sorted, Size(limit, |sorted|));
    assert multiset(both) == multiset(jsonl) + multiset(parquet);
  }

  lemma DescendingRows(rows: seq<Row>)
    requires Descending(Times(rows))
    ensures forall i, j :: 0 <= i < j < |rows| ==> rows[i].ts >= rows[j].ts
  {
    assert forall i :: 0 <= i < |rows| ==> Times(rows)[i] == rows[i].ts;
  }

  lemma PrefixHolds(rows: seq<Row>, n: nat)
    requires n <= |rows|
    ensures multiset(rows[..n]) <= multiset(rows)
  {
    assert rows == rows[..n] + rows[n..];
  }

  lemma {:induction false} MergeSelects(rows: seq<Row>, limit: int)
    ensures var kept := Times(SortNewest(rows))[..Size(limit, |rows|)];
      Descending(kept) && Newest(multiset(kept), multiset(Times(rows)), limit)
  {
    hide Newest;
    SortNewestSorts(rows);
    TimesPermuted(SortNewest(rows), rows);
    PrefixIsNewest(Times(SortNewest(rows)), limit);
  }

  /** Merging two selections, sorting and cutting gives the newest rows of both stores together. */
  lemma {:induction false} MergeIsNewestOfBoth(jsonl: seq<Row>, parquet: seq<Row>, inJsonl: seq<Row>,
                                               inParquet: seq<Row>, limit: int)
    requires Newest(multiset(Times(jsonl)), multiset(Times(inJsonl)), limit)
    requires Newest(multiset(Times(parquet)), multiset(Times(inParquet)), limit)
    ensures Times(MergeResults(jsonl, parquet, limit))
         == Times(SortNewest(inJsonl + inParquet))[..Size(limit, |inJsonl| + |inParquet|)]
  {
    hide Newest, Descending;
    var both, inBoth := jsonl + parquet, inJsonl + inParquet;
    var kept := Times(SortNewest(both))[..Size(limit, |both|)];
    assert Times(MergeResults(jsonl, parquet, limit)) == kept;
    MergeSelects(both, limit);
    TimesConcat(jsonl, parquet);
    TimesConcat(inJsonl, inParquet);
    NewestOfNewest(multiset(Times(jsonl)), multiset(Times(parquet)), multiset(Times(inJsonl)),
                   multiset(Times(inParquet)), multiset(kept), limit);
    SortNewestSorts(inBoth);
    TimesPermuted(SortNewest(inBoth), inBoth);
    NewestIsPrefix(kept, Times(SortNewest(inBoth)), limit);
  }
}

