// What "the lines of a log file" means, stated on whole byte strings and
// independently of how a reader cuts the file into chunks.
module LineSplit {
  import opened Bytes
  import opened Sequences

  const LF: Byte := 0x0a
  const CR: Byte := 0x0d

  /** The bytes after the last newline. */
  function Tail(s: Bytes): (t: Bytes) {
    if s == [] then []
    else if s[|s| - 1] == LF then []
    else Tail(s[..|s| - 1]) + [s[|s| - 1]]
  }

  /** The newline-terminated lines, without their newline. */
  function RawLines(s: Bytes): seq<Bytes> {
    if s == [] then []
    else
      var front := s[..|s| - 1];
      if s[|s| - 1] == LF then RawLines(front) + [Tail(front)] else RawLines(front)
  }

  function StripCr(raw: Bytes): Bytes {
    if raw != [] && raw[|raw| - 1] == CR then raw[..|raw| - 1] else raw
  }

  /** Each line stripped of one trailing CR, empty lines dropped. */
  function CleanLines(raws: seq<Bytes>): seq<Bytes> {
    if raws == [] then []
    else
      var clean := StripCr(raws[|raws| - 1]);
      CleanLines(raws[..|raws| - 1]) + if clean == [] then [] else [clean]
  }

  /** What one raw line contributes. A stripped line over the limit contributes nothing; the one
      raw length where only the CR is over the limit also depends on whether a read ended
      exactly at the newline. */
  function Kept(raw: Bytes, readEndsAtNewline: bool, limit: nat): seq<Bytes> {
    var clean := StripCr(raw);
    if clean == [] || |clean| > limit || (|raw| > limit && readEndsAtNewline) then [] else [clean]
  }

  /** A read ended at index `i` of bytes that start at file position `base`. */
  predicate CutAt(base: nat, i: nat, cuts: set<nat>) {
    base + i in cuts
  }

  /** What the lines of `s` contribute when `s` starts at file position `base` and reads ended
      at the file positions in `cuts`. */
  function Emit(s: Bytes, base: nat, cuts: set<nat>, limit: nat): seq<Bytes> {
    if s == [] then []
    else
      var front := s[..|s| - 1];
      if s[|s| - 1] == LF
      then Emit(front, base, cuts, limit) + Kept(Tail(front), CutAt(base, |front|, cuts), limit)
      else Emit(front, base, cuts, limit)
  }

  /** Only the lines whose raw length, CR included, is within the limit. */
  function InLimit(s: Bytes, limit: nat): seq<Bytes> {
    if s == [] then []
    else
      var front := s[..|s| - 1];
      if s[|s| - 1] == LF
      then InLimit(front, limit) + Kept(Tail(front), true, limit)
      else InLimit(front, limit)
  }

  /** True when a line of the file starts at `at`: at 0, or just after a newline. */
  predicate LineStart(s: Bytes, at: nat) {
    at == 0 || at > |s| || s[at - 1] == LF
  }

  function Unsplit(raws: seq<Bytes>): Bytes {
    if raws == [] then [] else Unsplit(raws[..|raws| - 1]) + raws[|raws| - 1] + [LF]
  }

  lemma {:induction false} TailFacts(s: Bytes)
    ensures LF !in Tail(s)
    ensures |Tail(s)| <= |s| && Tail(s) == s[|s| - |Tail(s)|..]
    ensures |Tail(s)| == |s| || s[|s| - |Tail(s)| - 1] == LF
  {
    if s != [] {
      TailFacts(s[..|s| - 1]);
    }
  }

  // ----- RawLines is the split on newline -----

  lemma RawLinesSnoc(s: Bytes, x: Byte)
    ensures RawLines(s + [x]) == if x == LF then RawLines(s) + [Tail(s)] else RawLines(s)
    ensures Tail(s + [x]) == if x == LF then [] else Tail(s) + [x]
  {
    assert (s + [x])[..|s|] == s;
  }

  lemma UnsplitSnoc(raws: seq<Bytes>, raw: Bytes)
    ensures Unsplit(raws + [raw]) == Unsplit(raws) + raw + [LF]
  {
    assert (raws + [raw])[..|raws|] == raws;
  }

  lemma GlueSnoc(u: Bytes, t: Bytes, x: Byte)
    ensures (u + t + [x]) + [] == (u + t) + [x] && u + (t + [x]) == (u + t) + [x]
  {
  }

  lemma UnsplitLine(front: Bytes, x: Byte)
    requires Unsplit(RawLines(front)) + Tail(front) == front
    ensures Unsplit(RawLines(front + [x])) + Tail(front + [x]) == front + [x]
  {
    hide Unsplit, RawLines, Tail;
    GlueSnoc(Unsplit(RawLines(front)), Tail(front), x);
    RawLinesSnoc(front, x);
    if x == LF {
      UnsplitSnoc(RawLines(front), Tail(front));
    }
  }

  lemma {:induction false} LinesHoldNoNewline(s: Bytes)
    ensures forall raw :: raw in RawLines(s) ==> LF !in raw
  {
    if s != [] {
      LinesHoldNoNewline(s[..|s| - 1]);
      TailFacts(s[..|s| - 1]);
    }
  }

  /** Splitting loses nothing: gluing the lines and the tail back gives the file, and no line
      contains a newline. */
  lemma {:induction false} SplitUnsplit(s: Bytes)
    ensures Unsplit(RawLines(s)) + Tail(s) == s
    ensures forall raw :: raw in RawLines(s) ==> LF !in raw
  {
    if s != [] {
      hide Unsplit, RawLines, Tail;
      var front, x := s[..|s| - 1], s[|s| - 1];
      assert s == front + [x];
      SplitUnsplit(front);
      UnsplitLine(front, x);
      LinesHoldNoNewline(s);
    }
  }

  /** A raw line, CR included, within the limit; a lone CR is dropped as an empty line anyway. */
  predicate Fitting(raw: Bytes, limit: nat) {
    |raw| <= limit || raw == [CR]
  }

  /** When every raw line fits, what is emitted is the cleaned split of the file, whatever the cuts. */
  lemma {:induction false} EmitIsCleanSplit(s: Bytes, base: nat, cuts: set<nat>, limit: nat)
    requires forall raw :: raw in RawLines(s) ==> Fitting(raw, limit)
    ensures Emit(s, base, cuts, limit) == CleanLines(RawLines(s))
  {
    if s != [] {
      var front := s[..|s| - 1];
      if s[|s| - 1] == LF {
        var raws := RawLines(front);
        assert RawLines(s) == raws + [Tail(front)];
        assert forall raw :: raw in raws ==> raw in RawLines(s);
        EmitIsCleanSplit(front, base, cuts, limit);
        assert RawLines(s)[..|raws|] == raws;
        assert Tail(front) in RawLines(s);
      } else {
        EmitIsCleanSplit(front, base, cuts, limit);
      }
    }
  }

  // ----- Composition -----

  lemma {:induction false} TailAppend(a: Bytes, b: Bytes)
    ensures Tail(a + b) == if LF in b then Tail(b) else Tail(a) + b
  {
    if b == [] {
      assert a + b == a;
    } else {
      var b' := b[..|b| - 1];
      assert (a + b)[..|a + b| - 1] == a + b';
      assert b == b' + [b[|b| - 1]];
      if b[|b| - 1] != LF {
        TailAppend(a, b');
      }
    }
  }

  lemma TailOfNewlineFree(s: Bytes)
    requires LF !in s
    ensures Tail(s) == s
  {
    TailAppend([], s);
    assert [] + s == s;
  }

  /** Emission is compositional at a line start. */
  lemma TailAtLineStart(a: Bytes, b: Bytes)
    requires Tail(a) == []
    ensures Tail(a + b) == Tail(b)
  {
    TailAppend(a, b);
    if LF !in b {
      TailOfNewlineFree(b);
      assert [] + b == b;
    }
  }

  /** The one-byte case of both emissions. */
  lemma EmitSnoc(s: Bytes, x: Byte, base: nat, cuts: set<nat>, limit: nat)
    ensures Emit(s + [x], base, cuts, limit)
         == Emit(s, base, cuts, limit) + if x == LF then Kept(Tail(s), CutAt(base, |s|, cuts), limit) else []
    ensures InLimit(s + [x], limit)
         == InLimit(s, limit) + if x == LF then Kept(Tail(s), true, limit) else []
    ensures Tail(s + [x]) == if x == LF then [] else Tail(s) + [x]
  {
    assert (s + [x])[..|s|] == s;
  }

  lemma EmitAppendStep(a: Bytes, b: Bytes, x: Byte, base: nat, cuts: set<nat>, limit: nat)
    requires Tail(a) == []
    requires Emit(a + b, base, cuts, limit) == Emit(a, base, cuts, limit) + Emit(b, base + |a|, cuts, limit)
    requires InLimit(a + b, limit) == InLimit(a, limit) + InLimit(b, limit)
    ensures Emit((a + b) + [x], base, cuts, limit)
         == Emit(a, base, cuts, limit) + Emit(b + [x], base + |a|, cuts, limit)
    ensures InLimit((a + b) + [x], limit) == InLimit(a, limit) + InLimit(b + [x], limit)
  {
    hide Emit, InLimit, Tail, Kept;
    var kept := if x == LF then Kept(Tail(b), CutAt(base + |a|, |b|, cuts), limit) else [];
    var strict := if x == LF then Kept(Tail(b), true, limit) else [];
    TailAtLineStart(a, b);
    EmitSnoc(a + b, x, base, cuts, limit);
    EmitSnoc(b, x, base + |a|, cuts, limit);
    ConcatAssoc(Emit(a, base, cuts, limit), Emit(b, base + |a|, cuts, limit), kept);
    ConcatAssoc(InLimit(a, limit), InLimit(b, limit), strict);
  }

  lemma {:induction false} EmitAppend(a: Bytes, b: Bytes, base: nat, cuts: set<nat>, limit: nat)
    requires Tail(a) == []
    ensures Emit(a + b, base, cuts, limit) == Emit(a, base, cuts, limit) + Emit(b, base + |a|, cuts, limit)
    ensures InLimit(a + b, limit) == InLimit(a, limit) + InLimit(b, limit)
    decreases |b|
  {
    if b == [] {
      assert a + b == a;
    } else {
      var b', x := b[..|b| - 1], b[|b| - 1];
      EmitAppend(a, b', base, cuts, limit);
      EmitAppendStep(a, b', x, base, cuts, limit);
      assert b == b' + [x] && a + b == (a + b') + [x];
    }
  }

  /** Bytes without a newline emit nothing and change nothing emitted before them. */
  lemma {:induction false} NewlineFreeSuffix(a: Bytes, b: Bytes, base: nat, cuts: set<nat>, limit: nat)
    requires LF !in b
    ensures Emit(a + b, base, cuts, limit) == Emit(a, base, cuts, limit)
    ensures InLimit(a + b, limit) == InLimit(a, limit)
  {
    if b == [] {
      assert a + b == a;
    } else {
      var b' := b[..|b| - 1];
      assert (a + b)[..|a + b| - 1] == a + b';
      NewlineFreeSuffix(a, b', base, cuts, limit);
    }
  }

  /** Only cuts further in than the limit matter, and only relative to the start of the bytes. */
  lemma {:induction false} HarmlessCuts(s: Bytes, base: nat, cuts: set<nat>, base': nat, cuts': set<nat>, limit: nat)
    requires forall i :: limit < i < |s| ==> (CutAt(base, i, cuts) <==> CutAt(base', i, cuts'))
    ensures Emit(s, base, cuts, limit) == Emit(s, base', cuts', limit)
  {
    if s != [] {
      HarmlessCuts(s[..|s| - 1], base, cuts, base', cuts', limit);
      TailFacts(s[..|s| - 1]);
    }
  }

  lemma {:induction false} InLimitWithinEmit(s: Bytes, base: nat, cuts: set<nat>, limit: nat)
    ensures IsSubsequence(InLimit(s, limit), Emit(s, base, cuts, limit))
  {
    if s != [] {
      var front := s[..|s| - 1];
      InLimitWithinEmit(front, base, cuts, limit);
      if s[|s| - 1] == LF {
        var strict := Kept(Tail(front), true, limit);
        var loose := Kept(Tail(front), CutAt(base, |front|, cuts), limit);
        if strict == [] {
          SubsequenceAppend(InLimit(front, limit), Emit(front, base, cuts, limit), loose);
          assert InLimit(front, limit) + [] == InLimit(front, limit);
        } else {
          SubsequenceReflexive(loose);
          SubsequenceConcat(InLimit(front, limit), Emit(front, base, cuts, limit), strict, loose);
        }
      }
    }
  }

  function FirstLf(s: Bytes): (k: nat)
    requires LF in s
    ensures k < |s| && s[k] == LF && LF !in s[..k]
  {
    if s[0] == LF then 0 else
      assert LF in s[1..];
      var k := 1 + FirstLf(s[1..]);
      assert s[..k] == [s[0]] + s[1..][..k - 1];
      k
  }

  /** The bytes after the first newline; nothing when there is none. */
  function AfterFirstLf(s: Bytes): Bytes {
    if LF in s then s[FirstLf(s) + 1..] else []
  }

  /** What is emitted for a prefix is a prefix of what is emitted for the whole. */
  lemma {:induction false} EmitPrefix(a: Bytes, b: Bytes, base: nat, cuts: set<nat>, limit: nat)
    ensures Emit(a, base, cuts, limit) <= Emit(a + b, base, cuts, limit)
    decreases |b|
  {
    if b == [] {
      assert a + b == a;
    } else {
      EmitPrefix(a, b[..|b| - 1], base, cuts, limit);
      assert a + b == (a + b[..|b| - 1]) + [b[|b| - 1]];
      EmitSnoc(a + b[..|b| - 1], b[|b| - 1], base, cuts, limit);
    }
  }

  lemma OversizeLineEnd(a: Bytes, line: Bytes, base: nat, cuts: set<nat>, limit: nat)
    requires |Tail(a)| > limit && CutAt(base, |a|, cuts) && LF !in line
    ensures Emit(a + line + [LF], base, cuts, limit) == Emit(a, base, cuts, limit)
    ensures InLimit(a + line + [LF], limit) == InLimit(a, limit)
    ensures Tail(a + line + [LF]) == []
  {
    var s := a + line;
    NewlineFreeSuffix(a, line, base, cuts, limit);
    TailAppend(a, line);
    assert Tail(s) == Tail(a) + line;
    assert |Tail(s)| == limit + 1 ==> line == [] && s == a;
    EmitSnoc(s, LF, base, cuts, limit);
    assert Kept(Tail(s), CutAt(base, |s|, cuts), limit) == [];
    TailAppend(s, [LF]);
  }

  lemma OversizeLineThen(a: Bytes, line: Bytes, rest: Bytes, base: nat, cuts: set<nat>, limit: nat)
    requires |Tail(a)| > limit && CutAt(base, |a|, cuts) && LF !in line
    ensures Emit((a + line + [LF]) + rest, base, cuts, limit)
         == Emit(a, base, cuts, limit) + Emit(rest, base + |a| + |line| + 1, cuts, limit)
    ensures InLimit((a + line + [LF]) + rest, limit) == InLimit(a, limit) + InLimit(rest, limit)
  {
    var upTo := a + line + [LF];
    OversizeLineEnd(a, line, base, cuts, limit);
    EmitAppend(upTo, rest, base, cuts, limit);
  }

  lemma EmitNothing(base: nat, cuts: set<nat>, limit: nat)
    ensures Emit([], base, cuts, limit) == [] && InLimit([], limit) == [] && Tail([]) == []
  {
  }

  lemma SplitAtFirstLf(a: Bytes, b: Bytes)
    requires LF in b
    ensures a + b == (a + b[..FirstLf(b)] + [LF]) + AfterFirstLf(b)
    ensures |AfterFirstLf(b)| == |b| - FirstLf(b) - 1
  {
  }

  /** A line already over the limit absorbs everything up to its newline. When it is over only by
      its CR, the read that ended there is a cut. */
  lemma OversizeLine(a: Bytes, b: Bytes, base: nat, cuts: set<nat>, limit: nat)
    requires |Tail(a)| > limit && CutAt(base, |a|, cuts)
    ensures Emit(a + b, base, cuts, limit)
         == Emit(a, base, cuts, limit) + Emit(AfterFirstLf(b), base + |a| + |b| - |AfterFirstLf(b)|, cuts, limit)
    ensures InLimit(a + b, limit) == InLimit(a, limit) + InLimit(AfterFirstLf(b), limit)
  {
    hide Emit, InLimit, Tail, FirstLf;
    if LF !in b {
      NewlineFreeSuffix(a, b, base, cuts, limit);
      EmitNothing(base + |a| + |b|, cuts, limit);
    } else {
      var k := FirstLf(b);
      SplitAtFirstLf(a, b);
      OversizeLineThen(a, b[..k], b[k + 1..], base, cuts, limit);
    }
  }

  lemma NewlineFreeBelow(s: Bytes, k: nat)
    requires k <= |s| && LF !in s[..k]
    ensures forall i :: 0 <= i < k ==> s[i] != LF
  {
    forall i | 0 <= i < k ensures s[i] != LF {
      assert s[i] == s[..k][i];
    }
  }

  lemma FirstLfIs(s: Bytes, k: nat)
    requires k < |s| && s[k] == LF && LF !in s[..k]
    ensures FirstLf(s) == k
  {
    hide FirstLf;
    NewlineFreeBelow(s, k);
    NewlineFreeBelow(s, FirstLf(s));
  }

  lemma AfterFirstLfAppend(a: Bytes, b: Bytes)
    ensures AfterFirstLf(a + b) == if LF in a then AfterFirstLf(a) + b else AfterFirstLf(b)
  {
    hide FirstLf;
    if LF in a {
      var j := FirstLf(a);
      assert (a + b)[..j] == a[..j];
      FirstLfIs(a + b, j);
      assert (a + b)[j + 1..] == a[j + 1..] + b;
    } else if LF in b {
      var j := FirstLf(b);
      assert (a + b)[..|a| + j] == a + b[..j];
      FirstLfIs(a + b, |a| + j);
      assert (a + b)[|a| + j + 1..] == b[j + 1..];
    }
  }
}
