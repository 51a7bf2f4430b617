// When the log tail agrees with the split of the file whatever the polls, and when the polls do not
// matter at all: the exact conditions, for the emission and for whole lifetimes.
module LogTailCuts {
  import opened Bytes
  import opened Wrappers
  import opened LineSplit
  import opened ProcessLogTail
  import opened LogTailExact

  /** A raw line that is over the limit only by its CR. */
  predicate OverByCr(raw: Bytes, limit: nat) {
    limit > 0 && |raw| == limit + 1 && raw[limit] == CR
  }

  predicate AllFitting(s: Bytes, limit: nat) {
    forall raw :: raw in RawLines(s) ==> Fitting(raw, limit)
  }

  predicate NoneOverByCr(s: Bytes, limit: nat) {
    forall raw :: raw in RawLines(s) ==> !OverByCr(raw, limit)
  }

  /** Reads ended at every index of `s` except perhaps at `gap` and at the first one. */
  predicate CutsAll(cuts: set<nat>, base: nat, size: nat, gap: nat) {
    forall i :: 0 < i < size && i != gap ==> CutAt(base, i, cuts)
  }

  // ----- One raw line -----

  /** A line over the limit is dropped when a read ends at its newline, although the split has it. */
  lemma KeptWithin(raw: Bytes, limit: nat)
    ensures Fitting(raw, limit) ==> Kept(raw, true, limit) == Kept(raw, false, limit) == CleanLines([raw])
    ensures !Fitting(raw, limit) ==> Kept(raw, true, limit) == [] && |CleanLines([raw])| == 1
    ensures OverByCr(raw, limit) <==> Kept(raw, true, limit) != Kept(raw, false, limit)
    ensures |Kept(raw, true, limit)| <= |Kept(raw, false, limit)| <= |CleanLines([raw])| <= 1
  {
    assert CleanLines([raw]) == if StripCr(raw) == [] then [] else [StripCr(raw)] by {
      assert [raw][..0] == [];
    }
  }

  lemma RawLinesStep(front: Bytes, limit: nat)
    ensures RawLines(front + [LF]) == RawLines(front) + [Tail(front)]
    ensures CleanLines(RawLines(front + [LF])) == CleanLines(RawLines(front)) + CleanLines([Tail(front)])
    ensures AllFitting(front + [LF], limit) <==> AllFitting(front, limit) && Fitting(Tail(front), limit)
    ensures NoneOverByCr(front + [LF], limit) <==> NoneOverByCr(front, limit) && !OverByCr(Tail(front), limit)
  {
    hide Tail, Fitting, OverByCr;
    var raws, raw := RawLines(front), Tail(front);
    RawLinesSnoc(front, LF);
    assert (raws + [raw])[..|raws|] == raws;
    assert [raw] == [] + [raw];
    assert forall r :: r in raws + [raw] <==> r in raws || r == raw;
  }

  lemma RawLinesSame(front: Bytes, x: Byte, limit: nat)
    requires x != LF
    ensures RawLines(front + [x]) == RawLines(front)
    ensures AllFitting(front + [x], limit) <==> AllFitting(front, limit)
    ensures NoneOverByCr(front + [x], limit) <==> NoneOverByCr(front, limit)
  {
    RawLinesSnoc(front, x);
  }

  // ----- The cleaned split -----

  /** Reads that end everywhere lose a line if and only if one does not fit. */
  lemma {:induction false} CutsLoseLines(s: Bytes, base: nat, cuts: set<nat>, limit: nat)
    requires CutsAll(cuts, base, |s|, 0)
    ensures |Emit(s, base, cuts, limit)| <= |CleanLines(RawLines(s))|
    ensures !AllFitting(s, limit) ==> |Emit(s, base, cuts, limit)| < |CleanLines(RawLines(s))|
  {
    if s != [] {
      var front, x := s[..|s| - 1], s[|s| - 1];
      assert s == front + [x];
      hide Emit, RawLines, CleanLines, Kept, Tail, Fitting, AllFitting;
      CutsLoseLines(front, base, cuts, limit);
      EmitSnoc(front, x, base, cuts, limit);
      if x == LF {
        RawLinesStep(front, limit);
        KeptWithin(Tail(front), limit);
        LongTailIsInside(front, limit);
      } else {
        RawLinesSame(front, x, limit);
      }
    }
  }

  lemma LongTailIsInside(front: Bytes, limit: nat)
    ensures !Fitting(Tail(front), limit) ==> |front| > 0
    ensures OverByCr(Tail(front), limit) ==> |front| > 1
  {
    TailFacts(front);
  }

  /** Emission agrees with the cleaned split for all cuts if and only if every raw line fits. */
  lemma EmitIsCleanSplitIff(s: Bytes, limit: nat)
    ensures (forall base: nat, cuts: set<nat> :: Emit(s, base, cuts, limit) == CleanLines(RawLines(s)))
       <==> AllFitting(s, limit)
  {
    hide Emit, RawLines, CleanLines, Fitting;
    if AllFitting(s, limit) {
      forall base: nat, cuts: set<nat> ensures Emit(s, base, cuts, limit) == CleanLines(RawLines(s)) {
        EmitIsCleanSplit(s, base, cuts, limit);
      }
    } else {
      var cuts := Cuts(|s|, 0);
      CutsLoseLines(s, 0, cuts, limit);
      assert Emit(s, 0, cuts, limit) != CleanLines(RawLines(s));
    }
  }

  // ----- Independence of the cuts -----

  lemma {:induction false} CutsDoNotMatter(s: Bytes, base: nat, cuts: set<nat>, base': nat, cuts': set<nat>, limit: nat)
    requires NoneOverByCr(s, limit)
    ensures Emit(s, base, cuts, limit) == Emit(s, base', cuts', limit)
  {
    if s != [] {
      var front, x := s[..|s| - 1], s[|s| - 1];
      assert s == front + [x];
      hide Emit, RawLines, CleanLines, Kept, Tail, OverByCr, NoneOverByCr;
      EmitSnoc(front, x, base, cuts, limit);
      EmitSnoc(front, x, base', cuts', limit);
      if x == LF {
        RawLinesStep(front, limit);
        KeptWithin(Tail(front), limit);
      } else {
        RawLinesSame(front, x, limit);
      }
      CutsDoNotMatter(front, base, cuts, base', cuts', limit);
    }
  }

  /** Fewer cuts keep no fewer lines; one more where a line over by its CR is spared. */
  lemma {:induction false} SparedLine(s: Bytes, gap: nat, base: nat, cuts: set<nat>, spared: set<nat>, limit: nat)
    requires CutsAll(cuts, base, |s|, 0) && base + gap !in spared
    ensures |Emit(s, base, cuts, limit)| <= |Emit(s, base, spared, limit)|
    ensures 0 < gap < |s| && s[gap] == LF && OverByCr(Tail(s[..gap]), limit)
      ==> |Emit(s, base, cuts, limit)| < |Emit(s, base, spared, limit)|
  {
    if s != [] {
      var front, x := s[..|s| - 1], s[|s| - 1];
      assert s == front + [x];
      assert gap < |front| ==> front[..gap] == s[..gap];
      hide Emit, Kept, Tail, OverByCr;
      SparedLine(front, gap, base, cuts, spared, limit);
      EmitSnoc(front, x, base, cuts, limit);
      EmitSnoc(front, x, base, spared, limit);
      KeptWithin(Tail(front), limit);
      if x == LF && |front| == 0 {
        KeptOfNothing(limit);
      }
    }
  }

  lemma KeptOfNothing(limit: nat)
    ensures Tail([]) == [] && Kept([], true, limit) == [] && Kept([], false, limit) == []
  {
  }

  /** Where the newline of a line that is over by its CR stands. */
  lemma {:induction false} OverByCrStands(s: Bytes, limit: nat) returns (gap: nat)
    requires !NoneOverByCr(s, limit)
    ensures 0 < gap < |s| && s[gap] == LF && OverByCr(Tail(s[..gap]), limit)
  {
    var front, x := s[..|s| - 1], s[|s| - 1];
    assert s == front + [x];
    hide Tail, RawLines, OverByCr, NoneOverByCr;
    if x == LF {
      RawLinesStep(front, limit);
      LongTailIsInside(front, limit);
    } else {
      RawLinesSame(front, x, limit);
    }
    if x == LF && OverByCr(Tail(front), limit) {
      gap := |front|;
    } else {
      gap := OverByCrStands(front, limit);
      assert front[..gap] == s[..gap];
    }
  }

  /** Emission does not depend on the cuts if and only if no raw line is over the limit only by its CR. */
  lemma EmitIgnoresCutsIff(s: Bytes, limit: nat)
    ensures (forall base: nat, cuts: set<nat>, base': nat, cuts': set<nat> ::
              Emit(s, base, cuts, limit) == Emit(s, base', cuts', limit))
       <==> NoneOverByCr(s, limit)
  {
    hide Emit, NoneOverByCr, OverByCr;
    if NoneOverByCr(s, limit) {
      forall base: nat, cuts: set<nat>, base': nat, cuts': set<nat>
        ensures Emit(s, base, cuts, limit) == Emit(s, base', cuts', limit)
      {
        CutsDoNotMatter(s, base, cuts, base', cuts', limit);
      }
    } else {
      var gap := OverByCrStands(s, limit);
      var all, spared := Cuts(|s|, 0), Cuts(|s|, gap);
      SparedLine(s, gap, 0, all, spared, limit);
      assert Emit(s, 0, all, limit) != Emit(s, 0, spared, limit);
    }
  }

  // ----- Lifetimes that read byte by byte -----

  predicate ReadEnds(k: nat, gap: nat) {
    k > 0 && k != gap
  }

  function Cuts(size: nat, gap: nat): set<nat> {
    set k: nat | k <= size && ReadEnds(k, gap)
  }

  function LastRead(size: nat, gap: nat): (got: nat)
    requires size > 0 && size != gap
    ensures 1 <= got <= 2 && got <= size && (size - got == gap ==> size == got)
  {
    if size > 1 && size - 1 == gap then 2 else 1
  }

  /** Reads of one byte, and one of two bytes over `gap`. */
  function ByteReads(size: nat, gap: nat): (events: seq<Event>)
    requires size == 0 || size != gap
    ensures SameLifetime(events) && AllPublished(events)
  {
    if size == 0 then []
    else
      var got := LastRead(size, gap);
      ByteReads(size - got, gap) + [Drain(got, None)]
  }

  lemma ByteReadsSnoc(size: nat, gap: nat)
    requires size > 0 && size != gap
    ensures var got := LastRead(size, gap);
      ByteReads(size, gap) == ByteReads(size - got, gap) + [Drain(got, None)]
  {
  }

  lemma ReadOf(w: World, got: nat, limit: nat)
    requires 0 < got <= 2 && w.cursor.readOffset + got <= |w.file|
    ensures var w' := Step(w, Drain(got, None), limit);
      && w'.file == w.file && w'.cursor.readOffset == w.cursor.readOffset + got
      && w'.cuts == w.cuts + {w'.cursor.readOffset}
  {
    hide Emit, Tail, FirstLf;
  }

  lemma RunSnoc(w: World, events: seq<Event>, e: Event, limit: nat)
    ensures Run(w, events + [e], limit) == Step(Run(w, events, limit), e, limit)
  {
    assert (events + [e])[..|events|] == events;
  }

  lemma OneMoreRead(w0: World, events: seq<Event>, got: nat, limit: nat)
    requires var w := Run(w0, events, limit); 0 < got <= 2 && w.cursor.readOffset + got <= |w.file|
    ensures var w, w' := Run(w0, events, limit), Run(w0, events + [Drain(got, None)], limit);
      && w'.file == w.file && w'.cursor.readOffset == w.cursor.readOffset + got
      && w'.cuts == w.cuts + {w'.cursor.readOffset}
  {
    hide Run, Step;
    RunSnoc(w0, events, Drain(got, None), limit);
    ReadOf(Run(w0, events, limit), got, limit);
  }

  lemma CutsSnoc(size: nat, gap: nat)
    requires size > 0 && size != gap
    ensures Cuts(size, gap) == Cuts(size - LastRead(size, gap), gap) + {size}
  {
  }

  predicate HasRead(w: World, file: Bytes, size: nat, gap: nat) {
    w.file == file && w.cursor.readOffset == size && w.cuts == Cuts(size, gap)
  }

  lemma ByteReadsOn(w0: World, file: Bytes, size: nat, gap: nat, limit: nat)
    requires 0 < size <= |file| && size != gap
    requires var before := size - LastRead(size, gap);
      HasRead(Run(w0, ByteReads(before, gap), limit), file, before, gap)
    ensures HasRead(Run(w0, ByteReads(size, gap), limit), file, size, gap)
  {
    hide Run, Cuts, ByteReads, LastRead;
    var got := LastRead(size, gap);
    CutsSnoc(size, gap);
    ByteReadsSnoc(size, gap);
    OneMoreRead(w0, ByteReads(size - got, gap), got, limit);
  }

  lemma {:induction false} ByteReadsCut(file: Bytes, size: nat, gap: nat, limit: nat)
    requires size <= |file| && (size == 0 || size != gap)
    ensures HasRead(Run(Boot(file, Some(0), []), ByteReads(size, gap), limit), file, size, gap)
    decreases size
  {
    if size == 0 {
      assert Cuts(0, gap) == {};
    } else {
      hide Run, Boot, HasRead, ByteReads, LastRead;
      ByteReadsCut(file, size - LastRead(size, gap), gap, limit);
      ByteReadsOn(Boot(file, Some(0), []), file, size, gap, limit);
    }
  }

  // ----- Whole lifetimes -----

  /** A lifetime that reads from the first byte, whose publishes all succeed, and that leaves this file. */
  predicate Leads(start: Bytes, saved: Option<nat>, events: seq<Event>, limit: nat, file: Bytes) {
    && FromStart(start, saved) && SameLifetime(events) && AllPublished(events)
    && Run(Boot(start, saved, []), events, limit).file == file
  }

  /** What it published is the emission of the bytes it read. */
  lemma LeadsPublishes(start: Bytes, saved: Option<nat>, events: seq<Event>, limit: nat, file: Bytes)
    requires Leads(start, saved, events, limit, file)
    ensures var w := Run(Boot(start, saved, []), events, limit);
      && w.cursor.committedOffset <= w.cursor.readOffset <= |file|
      && w.published == Emit(file[..w.cursor.readOffset], 0, w.cuts, limit)
      && file[..w.cursor.readOffset] == file[..w.cursor.committedOffset] + w.cursor.pending && LF !in w.cursor.pending
  {
    hide Emit, InLimit, Kept, Tail, FirstLf, Reading, Expected, Run;
    var w := Run(Boot(start, saved, []), events, limit);
    PublishesExactly(start, saved, events, limit);
    ReadingFromStart(w, limit);
    ExpectedAtCommitted(w, 0, false, limit);
    ExpectedFromStart(w, limit);
    assert file[..w.cursor.readOffset]
        == file[..w.cursor.committedOffset] + file[w.cursor.committedOffset..w.cursor.readOffset];
  }

  lemma ExpectedFromStart(w: World, limit: nat)
    requires Reading(w, 0, false, limit)
    ensures w.cursor.readOffset <= |w.file| && FirstLine(w.file, 0, false, w.cursor.readOffset) == 0
    ensures Expected(w, 0, false, limit) == Emit(w.file[..w.cursor.readOffset], 0, w.cuts, limit)
  {
    assert w.file[0..w.cursor.readOffset] == w.file[..w.cursor.readOffset];
  }

  lemma {:induction false} RawLinesOfRest(a: Bytes, b: Bytes)
    requires LF !in b
    ensures RawLines(a + b) == RawLines(a)
    decreases |b|
  {
    if b == [] {
      assert a + b == a;
    } else {
      var b' := b[..|b| - 1];
      RawLinesOfRest(a, b');
      assert a + b == (a + b') + [b[|b| - 1]];
      RawLinesSnoc(a + b', b[|b| - 1]);
    }
  }

  /** The lifetime published the cleaned split of the file up to its committed offset. */
  predicate PublishedSplit(start: Bytes, saved: Option<nat>, events: seq<Event>, limit: nat) {
    var w := Run(Boot(start, saved, []), events, limit);
    w.cursor.committedOffset <= |w.file| && w.published == CleanLines(RawLines(w.file[..w.cursor.committedOffset]))
  }

  /** Every lifetime that leads to a file, whatever its polls, publishes the cleaned split if and only if
      every raw line of the file, CR included, fits the limit. */
  lemma PublishesCleanSplitIff(file: Bytes, limit: nat)
    ensures (forall start, saved, events ::
              Leads(start, saved, events, limit, file) ==> PublishedSplit(start, saved, events, limit))
       <==> AllFitting(file, limit)
  {
    hide Run, RawLines, CleanLines, Fitting, Emit, FromStart, SameLifetime, AllPublished;
    if AllFitting(file, limit) {
      forall start, saved, events | Leads(start, saved, events, limit, file)
        ensures PublishedSplit(start, saved, events, limit)
      {
        PublishesCleanSplit(start, saved, events, limit);
      }
    } else {
      ByteReadsLose(file, limit);
    }
  }

  /** Read byte by byte, a file with a line that does not fit loses it. */
  lemma ByteReadsLose(file: Bytes, limit: nat)
    requires !AllFitting(file, limit)
    ensures Leads(file, Some(0), ByteReads(|file|, 0), limit, file)
    ensures !PublishedSplit(file, Some(0), ByteReads(|file|, 0), limit)
  {
    hide Run, RawLines, CleanLines, Fitting, Emit;
    var events := ByteReads(|file|, 0);
    var w := Run(Boot(file, Some(0), []), events, limit);
    ByteReadsCut(file, |file|, 0, limit);
    LeadsPublishes(file, Some(0), events, limit, file);
    assert file[..|file|] == file;
    RawLinesOfRest(file[..w.cursor.committedOffset], w.cursor.pending);
    CutsLoseLines(file, 0, w.cuts, limit);
  }

  /** Two lifetimes that lead to the same file and read the same bytes published the same. */
  predicate SamePublished(start: Bytes, saved: Option<nat>, events: seq<Event>, start': Bytes, saved': Option<nat>,
                          events': seq<Event>, limit: nat) {
    var w, w' := Run(Boot(start, saved, []), events, limit), Run(Boot(start', saved', []), events', limit);
    w.cursor.readOffset == w'.cursor.readOffset ==> w.published == w'.published
  }

  /** What is published of a file never depends on how it grew and was read, if and only if no raw line
      of it is over the limit only by its CR. */
  lemma PollsDoNotMatterIff(file: Bytes, limit: nat)
    ensures (forall start, saved, events, start', saved', events' ::
              Leads(start, saved, events, limit, file) && Leads(start', saved', events', limit, file)
              ==> SamePublished(start, saved, events, start', saved', events', limit))
       <==> NoneOverByCr(file, limit)
  {
    hide Run, RawLines, Emit, FromStart, SameLifetime, AllPublished, OverByCr, NoneOverByCr, SamePublished, Leads;
    if NoneOverByCr(file, limit) {
      forall start, saved, events, start', saved', events'
        | Leads(start, saved, events, limit, file) && Leads(start', saved', events', limit, file)
        ensures SamePublished(start, saved, events, start', saved', events', limit)
      {
        SameReads(start, saved, events, start', saved', events', limit, file);
      }
    } else {
      var gap := OverByCrStands(file, limit);
      ByteReadsDiffer(file, gap, limit);
    }
  }

  lemma SameReads(start: Bytes, saved: Option<nat>, events: seq<Event>, start': Bytes, saved': Option<nat>,
                  events': seq<Event>, limit: nat, file: Bytes)
    requires NoneOverByCr(file, limit)
    requires Leads(start, saved, events, limit, file) && Leads(start', saved', events', limit, file)
    ensures SamePublished(start, saved, events, start', saved', events', limit)
  {
    hide Run, RawLines, Emit, OverByCr, Leads;
    LeadsPublishes(start, saved, events, limit, file);
    LeadsPublishes(start', saved', events', limit, file);
    var w, w' := Run(Boot(start, saved, []), events, limit), Run(Boot(start', saved', []), events', limit);
    var seen := file[..w.cursor.readOffset];
    assert file == seen + file[w.cursor.readOffset..];
    RawLinesPrefix(seen, file[w.cursor.readOffset..]);
    CutsDoNotMatter(seen, 0, w.cuts, 0, w'.cuts, limit);
  }

  /** Read byte by byte, with and without a stop before that newline, the file is published differently. */
  lemma ByteReadsDiffer(file: Bytes, gap: nat, limit: nat)
    requires 0 < gap < |file| && file[gap] == LF && OverByCr(Tail(file[..gap]), limit)
    ensures Leads(file, Some(0), ByteReads(|file|, 0), limit, file)
    ensures Leads(file, Some(0), ByteReads(|file|, gap), limit, file)
    ensures !SamePublished(file, Some(0), ByteReads(|file|, 0), file, Some(0), ByteReads(|file|, gap), limit)
  {
    hide Run, Emit, OverByCr, Tail;
    ByteReadsCut(file, |file|, 0, limit);
    ByteReadsCut(file, |file|, gap, limit);
    LeadsPublishes(file, Some(0), ByteReads(|file|, 0), limit, file);
    LeadsPublishes(file, Some(0), ByteReads(|file|, gap), limit, file);
    assert file[..|file|] == file;
    SparedLine(file, gap, 0, Cuts(|file|, 0), Cuts(|file|, gap), limit);
  }
}
