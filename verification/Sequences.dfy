// Facts about sequences that several components share.
module Sequences {

  function Concat<T>(parts: seq<seq<T>>): seq<T> {
    if parts == [] then [] else Concat(parts[..|parts| - 1]) + parts[|parts| - 1]
  }

  lemma ConcatSnoc<T>(parts: seq<seq<T>>, part: seq<T>)
    ensures Concat(parts + [part]) == Concat(parts) + part
  {
    assert (parts + [part])[..|parts|] == parts;
  }

  lemma ConcatAssoc<T>(a: seq<T>, b: seq<T>, c: seq<T>)
    ensures (a + b) + c == a + (b + c)
  {
  }

  /** `small` can be obtained from `large` by deleting elements. */
  predicate IsSubsequence<T(==)>(small: seq<T>, large: seq<T>) {
    if small == [] then true
    else if large == [] then false
    else
      || (small[|small| - 1] == large[|large| - 1]
          && IsSubsequence(small[..|small| - 1], large[..|large| - 1]))
      || IsSubsequence(small, large[..|large| - 1])
  }

  lemma {:induction false} SubsequenceReflexive<T>(s: seq<T>)
    ensures IsSubsequence(s, s)
  {
    if s != [] {
      SubsequenceReflexive(s[..|s| - 1]);
    }
  }

  lemma {:induction false} SubsequenceConcat<T>(a: seq<T>, b: seq<T>, c: seq<T>, d: seq<T>)
    requires IsSubsequence(a, b) && IsSubsequence(c, d)
    ensures IsSubsequence(a + c, b + d)
    decreases |d|
  {
    if d == [] {
      assert a + c == a && b + d == b;
    } else {
      var d' := d[..|d| - 1];
      assert (b + d)[..|b + d| - 1] == b + d';
      if c == [] {
        SubsequenceConcat(a, b, c, d');
        assert a + c == a;
      } else if IsSubsequence(c, d') {
        SubsequenceConcat(a, b, c, d');
      } else {
        var c' := c[..|c| - 1];
        SubsequenceConcat(a, b, c', d');
        assert (a + c)[..|a + c| - 1] == a + c';
      }
    }
  }

  /** Appending to the larger side keeps a subsequence. */
  lemma SubsequenceAppend<T>(a: seq<T>, b: seq<T>, d: seq<T>)
    requires IsSubsequence(a, b)
    ensures IsSubsequence(a, b + d)
  {
    SubsequenceConcat(a, b, [], d);
    assert a + [] == a;
  }
}
