// Where the promises of the log tail end: what a lifetime publishes that starts inside a line, and
// the one raw length for which the cuts decide.
module LogTailRestart {
  import opened Bytes
  import opened Wrappers
  import opened LineSplit
  import opened ProcessLogTail
  import opened LogTailExact
  import opened LogTailRecovery

  /** The first newline splits an emission: what is left of the first line, and everything after it. */
  lemma EmitFirst(s: Bytes, base: nat, cuts: set<nat>, limit: nat)
    requires LF in s
    ensures var k := FirstLf(s);
      Emit(s, base, cuts, limit)
      == Kept(s[..k], CutAt(base, k, cuts), limit) + Emit(s[k + 1..], base + k + 1, cuts, limit)
  {
    hide Emit, InLimit, Tail, Kept, FirstLf;
    var k := FirstLf(s);
    var line := s[..k];
    assert s == (line + [LF]) + s[k + 1..];
    EmitSnoc(line, LF, base, cuts, limit);
    TailOfNewlineFree(line);
    NewlineFreeSuffix([], line, base, cuts, limit);
    EmitNothing(base, cuts, limit);
    assert [] + line == line;
    EmitAppend(line + [LF], s[k + 1..], base, cuts, limit);
  }

  /** A lifetime that starts at a saved offset, whatever it points at, publishes what is left of the
      line there and then every line after it. */
  lemma {:induction false} RestartPublishes(file: Bytes, at: nat, events: seq<Event>, limit: nat)
    requires at <= |file| && SameLifetime(events) && AllPublished(events)
    ensures var w := Run(Boot(file, Some(at), []), events, limit);
      && at <= w.cursor.readOffset <= |w.file|
      && var s := w.file[at..w.cursor.readOffset];
         LF in s ==>
           w.published == Kept(s[..FirstLf(s)], CutAt(at, FirstLf(s), w.cuts), limit)
                          + Emit(s[FirstLf(s) + 1..], at + FirstLf(s) + 1, w.cuts, limit)
  {
    hide Run, Emit, Kept, FirstLf, Fits;
    PublishesExactly(file, Some(at), events, limit);
    var w := Run(Boot(file, Some(at), []), events, limit);
    var s := w.file[at..w.cursor.readOffset];
    if LF in s {
      EmitFirst(s, at, w.cuts, limit);
    }
  }

  /** The lines that start at or after `at` and end before `read`. */
  function LinesFrom(file: Bytes, at: nat, read: nat, cuts: set<nat>, limit: nat): seq<Bytes>
    requires at <= read <= |file| && LF in file[at..read]
  {
    var s := file[at..read];
    if LineStart(file, at) then Emit(s, at, cuts, limit)
    else Emit(s[FirstLf(s) + 1..], at + FirstLf(s) + 1, cuts, limit)
  }

  /** A start publishes exactly the lines that begin there or later if and only if it is at a line start,
      or what is left of the line there is empty or over the limit. */
  lemma {:induction false} RestartPublishesWholeLinesIff(file: Bytes, at: nat, events: seq<Event>, limit: nat)
    requires at <= |file| && SameLifetime(events) && AllPublished(events)
    requires var w := Run(Boot(file, Some(at), []), events, limit);
      at <= w.cursor.readOffset <= |w.file| && LF in w.file[at..w.cursor.readOffset]
    ensures var w := Run(Boot(file, Some(at), []), events, limit);
      var s := w.file[at..w.cursor.readOffset];
      w.published == LinesFrom(w.file, at, w.cursor.readOffset, w.cuts, limit)
      <==> LineStart(w.file, at) || Kept(s[..FirstLf(s)], CutAt(at, FirstLf(s), w.cuts), limit) == []
  {
    hide Run, Emit, Kept, FirstLf, LineStart;
    RestartPublishes(file, at, events, limit);
    var w := Run(Boot(file, Some(at), []), events, limit);
    var s := w.file[at..w.cursor.readOffset];
    EmitFirst(s, at, w.cuts, limit);
    PrefixedBy(Kept(s[..FirstLf(s)], CutAt(at, FirstLf(s), w.cuts), limit),
               Emit(s[FirstLf(s) + 1..], at + FirstLf(s) + 1, w.cuts, limit));
  }

  /** Cuts can only drop lines. */
  lemma {:induction false} CutsOnlyDrop(s: Bytes, base: nat, cuts: set<nat>, limit: nat)
    ensures forall line :: line in Emit(s, base, cuts, limit) ==> line in Emit(s, 0, {}, limit)
  {
    if s != [] {
      hide Tail;
      CutsOnlyDrop(s[..|s| - 1], base, cuts, limit);
    }
  }

  /** And those are lines of the file. */
  lemma LinesFromAreGenuine(file: Bytes, at: nat, read: nat, cuts: set<nat>, limit: nat)
    requires at <= read <= |file| && LF in file[at..read]
    ensures Genuine(file, LinesFrom(file, at, read, cuts, limit), limit)
  {
    hide Emit, FirstLf;
    var s := file[at..read];
    var start := if LineStart(file, at) then at else at + FirstLf(s) + 1;
    assert file[start..read] == s[start - at..];
    LinesFromStart(file, start, read, limit);
    CutsOnlyDrop(file[start..read], start, cuts, limit);
  }

  lemma PrefixedBy<T>(a: seq<T>, b: seq<T>)
    ensures a + b == b <==> a == []
  {
    assert |a + b| == |a| + |b|;
  }

  // ----- A start inside a line -----

  lemma EmitOfOneLine(raw: Bytes, limit: nat)
    requires LF !in raw
    ensures Emit(raw + [LF], 0, {}, limit) == Kept(raw, false, limit) && Tail(raw + [LF]) == [] && Tail(raw) == raw
  {
    hide Emit, InLimit, Tail, Kept;
    EmitSnoc(raw, LF, 0, {}, limit);
    TailOfNewlineFree(raw);
    NewlineFreeSuffix([], raw, 0, {}, limit);
    EmitNothing(0, {}, limit);
    assert [] + raw == raw;
  }

  lemma OversizedIsRecorded()
    ensures DrainStep(Boot([97, 97], None, []), 2, None, 1).offset == Some(2)
  {
    hide Emit, Tail, FirstLf;
    var w := Boot([97, 97], None, []);
    assert w.file[0..2] == [97, 97] && [] + w.file == w.file;
    TailOfNewlineFree(w.file);
  }

  /** Such a start happens: with a limit of one byte, the reader of "aa" records offset 2 while it
      discards. A restart there publishes "b" once the line "aab" ends, although the file has no line to
      publish. */
  lemma RestartWhileDiscardingPublishesAFragment()
    ensures var recorded := DrainStep(Boot([97, 97], None, []), 2, None, 1).offset;
      var w := DrainStep(Boot([97, 97, 98, LF], recorded, []), 2, None, 1);
      w.published == [[98]] && Emit(w.file, 0, {}, 1) == []
  {
    hide Emit, Tail, FirstLf;
    OversizedIsRecorded();
    var w := Boot([97, 97, 98, LF], Some(2), []);
    var chunk: Bytes := [98] + [LF];
    assert w.file[2..4] == chunk && [] + chunk == chunk;
    EmitOfOneLine([98], 1);
    assert w.file == [97, 97, 98] + [LF];
    EmitOfOneLine([97, 97, 98], 1);
  }

  // ----- The one length that depends on the cuts -----

  const LONGEST: Bytes := [97, CR, LF]

  /** The raw line "a" CR is one byte over a limit of one. Read in one piece it is published; if a read
      ends between its CR and its newline it is discarded. */
  lemma CutDecidesTheLongestLine()
    ensures DrainStep(Boot(LONGEST, None, []), 3, None, 1).published == [[97]]
    ensures DrainStep(DrainStep(Boot(LONGEST, None, []), 2, None, 1), 1, None, 1).published == []
  {
    hide Emit, Tail, FirstLf;
    ReadAtOnce();
    ReadInTwo();
  }

  lemma ReadAtOnce()
    ensures DrainStep(Boot(LONGEST, None, []), 3, None, 1).published == [[97]]
  {
    hide Emit, Tail, FirstLf;
    var w := Boot(LONGEST, None, []);
    assert w.file[0..3] == LONGEST && [] + LONGEST == LONGEST && [97, CR] + [LF] == LONGEST;
    EmitOfOneLine([97, CR], 1);
    assert [97, CR][..1] == [97];
  }

  lemma ReadInTwo()
    ensures DrainStep(DrainStep(Boot(LONGEST, None, []), 2, None, 1), 1, None, 1).published == []
  {
    hide Emit, Tail, FirstLf;
    var w := Boot(LONGEST, None, []);
    assert w.file[0..2] == [97, CR] && [] + [97, CR] == [97, CR];
    EmitOfOneLine([97, CR], 1);
    NewlineFreeSuffix([], [97, CR], 0, {}, 1);
    EmitNothing(0, {}, 1);
    var w1 := DrainStep(w, 2, None, 1);
    assert w1.cursor == At(2, 2, [], true) && w1.published == [];
    AfterNewline(w1);
  }

  lemma AfterNewline(w: World)
    requires w.file == LONGEST && w.cursor == At(2, 2, [], true) && w.published == []
    ensures DrainStep(w, 1, None, 1).published == []
  {
    hide Emit, Tail;
    assert w.file[2..3] == [LF] && [] + [LF] == [LF];
    FirstLfIs([LF], 0);
    EmitNothing(0, {}, 1);
    assert AfterFirstLf([LF]) == [];
  }
}
