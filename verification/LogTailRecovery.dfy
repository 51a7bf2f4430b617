// What survives rejected publishes, failed offset writes and restarts of the log tail.
module LogTailRecovery {
  import opened Bytes
  import opened Wrappers
  import opened Sequences
  import opened LineSplit
  import opened ProcessLogTail

  // ----- No in-limit line is lost -----

  /** Every in-limit line of `s` was published, in order, and a line that `s` breaks off is either
      empty or already over the limit. */
  ghost predicate Covered(s: Bytes, published: seq<Bytes>, limit: nat) {
    && (Tail(s) == [] || |Tail(s)| > limit)
    && IsSubsequence(InLimit(s, limit), published)
  }

  /** `from` is a line start of interest; it is safe to resume reading at `at`. */
  ghost predicate Recorded(file: Bytes, at: nat, from: nat, published: seq<Bytes>, limit: nat) {
    at <= |file| && (at < from || Covered(file[from..at], published, limit))
  }

  lemma CoverMore(s: Bytes, published: seq<Bytes>, more: seq<Bytes>, limit: nat)
    requires Covered(s, published, limit)
    ensures Covered(s, published + more, limit)
  {
    SubsequenceAppend(InLimit(s, limit), published, more);
  }

  lemma EmitAfterFirstLf(v: Bytes, limit: nat)
    requires LF in v
    ensures Emit(v, 0, {}, limit)
         == Emit(v[..FirstLf(v) + 1], 0, {}, limit) + Emit(AfterFirstLf(v), 0, {}, limit)
  {
    hide Emit, InLimit, Tail, FirstLf, Kept;
    var k := FirstLf(v);
    assert v[..k + 1] == v[..k] + [LF];
    assert v == v[..k + 1] + AfterFirstLf(v);
    EmitSnoc(v[..k], LF, 0, {}, limit);
    EmitAppend(v[..k + 1], AfterFirstLf(v), 0, {}, limit);
    HarmlessCuts(AfterFirstLf(v), k + 1, {}, 0, {}, limit);
  }

  /** Reading on from a safe point. */
  lemma CoverPending(u: Bytes, v: Bytes, published: seq<Bytes>, limit: nat)
    requires Covered(u, published, limit)
    ensures IsSubsequence(InLimit(u + v, limit), published + Emit(v, 0, {}, limit))
  {
    hide Emit, InLimit, Tail, FirstLf, IsSubsequence, Kept, AfterFirstLf;
    if LF !in v {
      NewlineFreeSuffix(u, v, 0, {}, limit);
      SubsequenceAppend(InLimit(u, limit), published, Emit(v, 0, {}, limit));
    } else if Tail(u) == [] {
      EmitAppend(u, v, 0, {}, limit);
      InLimitWithinEmit(v, 0, {}, limit);
      SubsequenceConcat(InLimit(u, limit), published, InLimit(v, limit), Emit(v, 0, {}, limit));
    } else {
      CoverDiscarded(u, v, published, limit);
      EmitAfterFirstLf(v, limit);
      SubsequenceInsert(InLimit(u + v, limit), published,
                        Emit(v[..FirstLf(v) + 1], 0, {}, limit), Emit(AfterFirstLf(v), 0, {}, limit),
                        InLimit(u, limit), InLimit(AfterFirstLf(v), limit));
    }
  }

  /** Reading on while the line at the end of `u` is being discarded. */
  lemma CoverDiscarded(u: Bytes, v: Bytes, published: seq<Bytes>, limit: nat)
    requires |Tail(u)| > limit && IsSubsequence(InLimit(u, limit), published)
    ensures InLimit(u + v, limit) == InLimit(u, limit) + InLimit(AfterFirstLf(v), limit)
    ensures IsSubsequence(InLimit(AfterFirstLf(v), limit), Emit(AfterFirstLf(v), 0, {}, limit))
    ensures IsSubsequence(InLimit(u + v, limit), published + Emit(AfterFirstLf(v), 0, {}, limit))
  {
    hide Emit, InLimit, Tail, FirstLf, IsSubsequence, Kept, AfterFirstLf;
    OversizeLine(u, v, 0, {|u|}, limit);
    InLimitWithinEmit(AfterFirstLf(v), 0, {}, limit);
    SubsequenceConcat(InLimit(u, limit), published, InLimit(AfterFirstLf(v), limit),
      Emit(AfterFirstLf(v), 0, {}, limit));
  }

  lemma SubsequenceInsert<T>(all: seq<T>, p: seq<T>, m: seq<T>, q: seq<T>, x: seq<T>, y: seq<T>)
    requires all == x + y && IsSubsequence(x, p) && IsSubsequence(y, q)
    ensures IsSubsequence(all, p + (m + q))
  {
    hide IsSubsequence;
    SubsequenceAppend(x, p, m);
    SubsequenceConcat(x, p + m, y, q);
    ConcatAssoc(p, m, q);
  }

  lemma EndsLine(front: Bytes)
    ensures Tail(front + [LF]) == [] && LF in front + [LF]
  {
    assert (front + [LF])[|front|] == LF;
  }

  lemma AfterFirstLfTail(a: Bytes)
    requires LF in a
    ensures Tail(AfterFirstLf(a)) == Tail(a)
  {
    hide Tail, FirstLf;
    RestOfChunk(a, FirstLf(a) + 1);
  }

  /** Emission past a line start contains the in-limit lines after it. */
  lemma CoverSuffix(lead: Bytes, b: Bytes, published: seq<Bytes>, limit: nat)
    requires Tail(lead) == []
    ensures IsSubsequence(InLimit(b, limit), published + Emit(lead + b, 0, {}, limit))
  {
    hide Emit, InLimit, Tail, IsSubsequence, Kept;
    var inside := Emit(b, |lead|, {}, limit);
    EmitAppend(lead, b, 0, {}, limit);
    InLimitWithinEmit(b, |lead|, {}, limit);
    EmptySubsequence(published);
    assert [] + InLimit(b, limit) == InLimit(b, limit);
    SubsequenceInsert(InLimit(b, limit), published, Emit(lead, 0, {}, limit), inside, [], InLimit(b, limit));
  }

  /** Reading past the line start of interest: `a` ends just before it. */
  lemma CoverCrossing(a: Bytes, b: Bytes, discard: bool, published: seq<Bytes>, limit: nat)
    requires a != [] && a[|a| - 1] == LF
    ensures IsSubsequence(InLimit(b, limit),
                          published + Emit(if discard then AfterFirstLf(a + b) else a + b, 0, {}, limit))
    ensures Tail(a + b) == Tail(b) && LF in a + b
  {
    hide Emit, InLimit, Tail, FirstLf, IsSubsequence, Kept, AfterFirstLf;
    EndsLine(a[..|a| - 1]);
    assert a == a[..|a| - 1] + [LF];
    AfterFirstLfTail(a);
    TailAtLineStart(a, b);
    AfterFirstLfAppend(a, b);
    CoverSuffix(if discard then AfterFirstLf(a) else a, b, published, limit);
  }

  lemma EmptySubsequence<T>(s: seq<T>)
    ensures IsSubsequence([], s)
  {
  }

  /** Where a cursor may settle once everything up to the end of `s` was handled. */
  lemma Settle(s: Bytes, published: seq<Bytes>, limit: nat)
    requires IsSubsequence(InLimit(s, limit), published)
    ensures |Tail(s)| <= |s| && Covered(s[..|s| - |Tail(s)|], published, limit)
    ensures |Tail(s)| > limit ==> Covered(s, published, limit)
  {
    hide Emit, InLimit, Tail, IsSubsequence, Kept;
    TailFacts(s);
    var rest := Tail(s);
    var done := s[..|s| - |rest|];
    assert s == done + rest;
    NewlineFreeSuffix(done, rest, 0, {}, limit);
    if done == [] {
      EmitNothing(0, {}, limit);
    } else {
      assert done == done[..|done| - 1] + [LF];
      EndsLine(done[..|done| - 1]);
    }
  }

  /** The part of the invariant that speaks of the cursor alone. */
  ghost predicate CursorSafe(file: Bytes, c: Cursor, from: nat, published: seq<Bytes>, limit: nat) {
    && c.committedOffset <= c.readOffset <= |file|
    && Recorded(file, c.committedOffset, from, published, limit)
    && if c.discard then
         && c.committedOffset == c.readOffset && c.pending == []
         && (c.readOffset < from || |Tail(file[from..c.readOffset])| > limit)
       else
         && c.pending == file[c.committedOffset..c.readOffset]
         && LF !in c.pending && |c.pending| <= limit
  }

  /** The shape of the cursor after a chunk whose bytes from the committed offset on are `v`. */
  lemma CommittedShape(file: Bytes, c: Cursor, next: nat, limit: nat)
    requires c.committedOffset <= c.readOffset <= next <= |file|
    requires c.pending == file[c.committedOffset..c.readOffset]
    ensures var v, c' := file[c.committedOffset..next], Committed(c, file[c.readOffset..next], limit);
      && v == c.pending + file[c.readOffset..next]
      && c'.readOffset == next && |Tail(v)| <= |v| && LF !in Tail(v)
      && if (c.discard && LF !in v) || |Tail(v)| > limit
         then c' == At(next, next, [], true)
         else c' == At(next, next - |Tail(v)|, Tail(v), false) && Tail(v) == file[next - |Tail(v)|..next]
  {
    hide Tail;
    var v := file[c.committedOffset..next];
    assert v == c.pending + file[c.readOffset..next];
    TailFacts(v);
    assert v[|v| - |Tail(v)|..] == file[next - |Tail(v)|..next];
  }

  /** A cursor that settled on the line start before `next`, or discards from `next` on. */
  lemma Resettle(file: Bytes, from: nat, next: nat, c: Cursor, published: seq<Bytes>, limit: nat)
    requires from <= next <= |file| && IsSubsequence(InLimit(file[from..next], limit), published)
    requires var rest := Tail(file[from..next]);
      if |rest| > limit then c == At(next, next, [], true)
      else |rest| <= next && c == At(next, next - |rest|, rest, false)
    ensures CursorSafe(file, c, from, published, limit)
  {
    hide Tail, InLimit, IsSubsequence, Covered;
    var s := file[from..next];
    Settle(s, published, limit);
    TailFacts(s);
    CutSlice(file, from, next, |Tail(s)|);
  }

  lemma CutSlice(file: Bytes, from: nat, next: nat, k: nat)
    requires from <= next <= |file| && k <= next - from
    ensures var s := file[from..next];
      s[..|s| - k] == file[from..next - k] && s[|s| - k..] == file[next - k..next]
  {
  }

  lemma AdvanceBehind(file: Bytes, c: Cursor, next: nat, from: nat, published: seq<Bytes>, limit: nat)
    requires CursorSafe(file, c, from, published, limit)
    requires from <= c.committedOffset && c.readOffset <= next <= |file|
    ensures var chunk := file[c.readOffset..next];
      CursorSafe(file, Committed(c, chunk, limit), from, published + ChunkLines(c, chunk, limit), limit)
  {
    hide Tail, Emit, InLimit, IsSubsequence, Committed, AfterFirstLf;
    var chunk := file[c.readOffset..next];
    var u, v := file[from..c.committedOffset], file[c.committedOffset..next];
    assert c.discard ==> c.pending == file[c.committedOffset..c.readOffset];
    CommittedShape(file, c, next, limit);
    assert file[from..next] == u + v;
    TailAppend(u, v);
    TailOfPart(v);
    if c.discard {
      CoverDiscarded(u, v, published, limit);
      Resettle(file, from, next, Committed(c, chunk, limit), published + ChunkLines(c, chunk, limit), limit);
    } else if LF !in v && |v| <= limit {
      CoverMore(u, published, ChunkLines(c, chunk, limit), limit);
    } else {
      CoverPending(u, v, published, limit);
      Resettle(file, from, next, Committed(c, chunk, limit), published + ChunkLines(c, chunk, limit), limit);
    }
  }

  lemma TailOfPart(v: Bytes)
    ensures LF !in v ==> Tail(v) == v
  {
    if LF !in v {
      TailOfNewlineFree(v);
    }
  }

  lemma AdvanceAcross(file: Bytes, c: Cursor, next: nat, from: nat, published: seq<Bytes>, limit: nat)
    requires CursorSafe(file, c, from, published, limit) && LineStart(file, from)
    requires c.committedOffset < from && c.readOffset <= next <= |file|
    ensures var chunk := file[c.readOffset..next];
      CursorSafe(file, Committed(c, chunk, limit), from, published + ChunkLines(c, chunk, limit), limit)
  {
    hide Tail, Emit, InLimit, IsSubsequence, Committed, AfterFirstLf, Covered;
    var chunk := file[c.readOffset..next];
    assert c.discard ==> c.pending == file[c.committedOffset..c.readOffset];
    CommittedShape(file, c, next, limit);
    if from <= next {
      var a, b := file[c.committedOffset..from], file[from..next];
      assert file[c.committedOffset..next] == a + b;
      assert a[|a| - 1] == file[from - 1];
      CoverCrossing(a, b, c.discard, published, limit);
      Resettle(file, from, next, Committed(c, chunk, limit), published + ChunkLines(c, chunk, limit), limit);
    }
  }

  ghost predicate NoLoss(w: World, from: nat, limit: nat) {
    && CursorSafe(w.file, w.cursor, from, w.published, limit)
    && (w.offset.Some? ==> Recorded(w.file, w.offset.value, from, w.published, limit))
    && (w.saved.Some? ==> Recorded(w.file, w.saved.value, from, w.published, limit))
  }

  lemma RecordedStays(w: World, w': World, at: nat, from: nat, limit: nat)
    requires Recorded(w.file, at, from, w.published, limit)
    requires w.file <= w'.file && w.published <= w'.published
    ensures Recorded(w'.file, at, from, w'.published, limit)
  {
    hide Covered;
    if from <= at {
      assert w'.file[from..at] == w.file[from..at];
      assert w'.published == w.published + w'.published[|w.published|..];
      CoverMore(w.file[from..at], w.published, w'.published[|w.published|..], limit);
    }
  }

  lemma CursorSafeStays(w: World, w': World, from: nat, limit: nat)
    requires CursorSafe(w.file, w.cursor, from, w.published, limit)
    requires w.file <= w'.file && w.published <= w'.published && w'.cursor == w.cursor
    ensures CursorSafe(w'.file, w'.cursor, from, w'.published, limit)
  {
    hide Covered, Recorded, Tail;
    var c := w.cursor;
    RecordedStays(w, w', c.committedOffset, from, limit);
    assert w'.file[c.committedOffset..c.readOffset] == w.file[c.committedOffset..c.readOffset];
    if from <= c.readOffset {
      assert w'.file[from..c.readOffset] == w.file[from..c.readOffset];
    }
  }

  /** A start without a saved offset begins at 0, or discards up to a newline before `from`. */
  predicate StartsBefore(c: Cursor, from: nat) {
    if c.discard then c.readOffset < from else c.readOffset <= from
  }

  lemma BootKeepsNoLoss(file: Bytes, saved: Option<nat>, from: nat, published: seq<Bytes>, limit: nat)
    requires saved.None? ==> StartsBefore(InitialCursor(None, |file|), from)
    requires saved.Some? ==> Recorded(file, saved.value, from, published, limit)
    ensures NoLoss(Boot(file, saved, published), from, limit)
  {
    hide IsSubsequence;
    var at := InitialCursor(saved, |file|).readOffset;
    assert file[at..at] == [];
    EmitNothing(0, {}, limit);
    EmptySubsequence(published);
  }

  lemma DrainKeepsNoLoss(w: World, got: nat, reject: Option<nat>, from: nat, limit: nat)
    requires NoLoss(w, from, limit) && LineStart(w.file, from)
    ensures NoLoss(DrainStep(w, got, reject, limit), from, limit)
  {
    hide Recorded, CursorSafe, Committed, ChunkLines;
    var w' := DrainStep(w, got, reject, limit);
    CursorBounds(w.file, w.cursor, from, w.published, limit);
    var read := w.cursor.readOffset;
    var n := Min(got, Min(READ_CHUNK_BYTES, |w.file| - read));
    if n > 0 {
      var chunk := w.file[read..read + n];
      if w'.cursor == w.cursor && w'.offset == w.offset {
        CursorSafeStays(w, w', from, limit);
      } else if from <= w.cursor.committedOffset {
        AdvanceBehind(w.file, w.cursor, read + n, from, w.published, limit);
      } else {
        AdvanceAcross(w.file, w.cursor, read + n, from, w.published, limit);
      }
      CursorBounds(w'.file, w'.cursor, from, w'.published, limit);
    }
    StoredStays(w, w', from, limit);
  }

  lemma CursorBounds(file: Bytes, c: Cursor, from: nat, published: seq<Bytes>, limit: nat)
    requires CursorSafe(file, c, from, published, limit)
    ensures c.readOffset <= |file| && Recorded(file, c.committedOffset, from, published, limit)
  {
  }

  lemma StoredStays(w: World, w': World, from: nat, limit: nat)
    requires NoLoss(w, from, limit) && w.file <= w'.file && w.published <= w'.published
    ensures w.offset.Some? ==> Recorded(w'.file, w.offset.value, from, w'.published, limit)
    ensures w.saved.Some? ==> Recorded(w'.file, w.saved.value, from, w'.published, limit)
  {
    hide Recorded, CursorSafe;
    if w.offset.Some? {
      RecordedStays(w, w', w.offset.value, from, limit);
    }
    if w.saved.Some? {
      RecordedStays(w, w', w.saved.value, from, limit);
    }
  }

  lemma StepKeepsNoLoss(w: World, e: Event, from: nat, limit: nat)
    requires NoLoss(w, from, limit) && LineStart(w.file, from)
    requires e.Restart? && w.saved.None? ==> StartsBefore(InitialCursor(None, |w.file|), from)
    ensures NoLoss(Step(w, e, limit), from, limit)
  {
    hide Recorded, CursorSafe, DrainStep, Boot;
    match e
    case Append(bytes) =>
      CursorSafeStays(w, Step(w, e, limit), from, limit);
      StoredStays(w, Step(w, e, limit), from, limit);
    case Drain(got, reject) => DrainKeepsNoLoss(w, got, reject, from, limit);
    case Persist(ok) =>
    case Restart => BootKeepsNoLoss(w.file, w.saved, from, w.published, limit);
  }

  /** Every restart that finds no saved offset starts before `from`. */
  predicate BackfillsReach(w: World, events: seq<Event>, from: nat, limit: nat) {
    events == []
    || (var before := events[..|events| - 1];
        var w' := Run(w, before, limit);
        && BackfillsReach(w, before, from, limit)
        && (events[|events| - 1].Restart? && w'.saved.None? ==> StartsBefore(InitialCursor(None, |w'.file|), from)))
  }

  /** A line start of the file was one all along: the file only grows. */
  lemma LineStartEarlier(w: World, e: Event, from: nat, limit: nat)
    requires LineStart(Step(w, e, limit).file, from)
    ensures LineStart(w.file, from)
  {
    hide ChunkLines, Committed;
  }

  lemma {:induction false} RunKeepsNoLoss(w: World, events: seq<Event>, from: nat, limit: nat)
    requires NoLoss(w, from, limit) && LineStart(Run(w, events, limit).file, from)
    requires BackfillsReach(w, events, from, limit)
    ensures NoLoss(Run(w, events, limit), from, limit)
  {
    if events != [] {
      hide NoLoss, Step, LineStart, StartsBefore;
      var before, e := events[..|events| - 1], events[|events| - 1];
      LineStartEarlier(Run(w, before, limit), e, from, limit);
      RunKeepsNoLoss(w, before, from, limit);
      StepKeepsNoLoss(Run(w, before, limit), e, from, limit);
    }
  }

  /** Over every run of growth, polls, short reads, rejected publishes, failed or missing offset
      writes and restarts, every in-limit line that starts at or after `from` and ends before the
      committed offset was published, in file order. */
  lemma {:induction false} NoLineLost(file: Bytes, saved: Option<nat>, events: seq<Event>, from: nat, limit: nat)
    requires saved.Some? ==> saved.value <= |file|
    requires StartsBefore(InitialCursor(saved, |file|), from)
    requires var w0 := Boot(file, saved, []);
      && BackfillsReach(w0, events, from, limit)
      && LineStart(Run(w0, events, limit).file, from)
    ensures var w := Run(Boot(file, saved, []), events, limit);
      && w.cursor.committedOffset <= |w.file|
      && (from <= w.cursor.committedOffset ==>
            IsSubsequence(InLimit(w.file[from..w.cursor.committedOffset], limit), w.published))
  {
    hide Run, InLimit, IsSubsequence;
    if saved.Some? && from <= saved.value {
      assert file[from..saved.value] == [];
      EmitNothing(0, {}, limit);
      EmptySubsequence<Bytes>([]);
    }
    BootKeepsNoLoss(file, saved, from, [], limit);
    RunKeepsNoLoss(Boot(file, saved, []), events, from, limit);
  }

  // ----- Nothing but lines of the file -----

  ghost predicate Genuine(file: Bytes, published: seq<Bytes>, limit: nat) {
    forall line :: line in published ==> line in Emit(file, 0, {}, limit)
  }

  ghost predicate Honest(w: World, limit: nat) {
    var c := w.cursor;
    && c.committedOffset <= c.readOffset <= |w.file|
    && (w.offset.Some? ==> w.offset.value <= |w.file|)
    && (w.saved.Some? ==> w.saved.value <= |w.file|)
    && c.pending == w.file[c.committedOffset..c.readOffset]
    && (!c.discard ==> LineStart(w.file, c.committedOffset))
    && Genuine(w.file, w.published, limit)
  }

  lemma TailAtStart(file: Bytes, at: nat)
    requires at <= |file| && LineStart(file, at)
    ensures Tail(file[..at]) == []
  {
    if at > 0 {
      EndsLine(file[..at - 1]);
      assert file[..at] == file[..at - 1] + [LF];
    }
  }

  lemma GenuineGrows(file: Bytes, more: Bytes, published: seq<Bytes>, limit: nat)
    requires Genuine(file, published, limit)
    ensures Genuine(file + more, published, limit)
  {
    hide Emit;
    EmitPrefix(file, more, 0, {}, limit);
  }

  /** The lines between a line start and any later offset are lines of the file. */
  lemma LinesFromStart(file: Bytes, start: nat, next: nat, limit: nat)
    requires start <= next <= |file| && LineStart(file, start)
    ensures Genuine(file, Emit(file[start..next], 0, {}, limit), limit)
  {
    hide Emit, Tail, InLimit, Kept, LineStart;
    TailAtStart(file, start);
    assert file[..next] == file[..start] + file[start..next];
    assert file == file[..next] + file[next..];
    EmitAppend(file[..start], file[start..next], 0, {}, limit);
    HarmlessCuts(file[start..next], start, {}, 0, {}, limit);
    GenuineGrows(file[..next], file[next..], Emit(file[start..next], 0, {}, limit), limit);
  }

  lemma ChunkLinesGenuine(file: Bytes, c: Cursor, next: nat, limit: nat)
    requires c.committedOffset <= c.readOffset <= next <= |file|
    requires c.pending == file[c.committedOffset..c.readOffset]
    requires !c.discard ==> LineStart(file, c.committedOffset)
    ensures Genuine(file, ChunkLines(c, file[c.readOffset..next], limit), limit)
  {
    hide Emit, Tail, FirstLf, Committed, Genuine;
    var v := file[c.committedOffset..next];
    assert v == c.pending + file[c.readOffset..next];
    if c.discard && LF in v {
      var start := c.committedOffset + FirstLf(v) + 1;
      assert file[start..next] == AfterFirstLf(v);
      assert file[start - 1] == v[FirstLf(v)];
      LinesFromStart(file, start, next, limit);
    } else if c.discard {
      NothingGenuine(file, limit);
    } else {
      LinesFromStart(file, c.committedOffset, next, limit);
    }
  }

  lemma NothingGenuine(file: Bytes, limit: nat)
    ensures Genuine(file, Emit([], 0, {}, limit), limit)
  {
    EmitNothing(0, {}, limit);
  }

  lemma CommittedAligned(file: Bytes, c: Cursor, next: nat, limit: nat)
    requires c.committedOffset <= c.readOffset <= next <= |file|
    requires c.pending == file[c.committedOffset..c.readOffset]
    requires !c.discard ==> LineStart(file, c.committedOffset)
    ensures var c' := Committed(c, file[c.readOffset..next], limit);
      && c'.committedOffset <= c'.readOffset == next
      && c'.pending == file[c'.committedOffset..next]
      && (!c'.discard ==> LineStart(file, c'.committedOffset))
  {
    hide Tail, Committed;
    var v := file[c.committedOffset..next];
    CommittedShape(file, c, next, limit);
    TailFacts(v);
    if |Tail(v)| < |v| {
      assert v[|v| - |Tail(v)| - 1] == file[next - |Tail(v)| - 1];
    }
  }

  /** Restarts resume at a line start: the saved offset was not recorded while discarding. */
  predicate AlignedRestarts(w: World, events: seq<Event>, limit: nat) {
    events == []
    || (var before := events[..|events| - 1];
        var w' := Run(w, before, limit);
        && AlignedRestarts(w, before, limit)
        && (events[|events| - 1].Restart? && w'.saved.Some? ==> LineStart(w'.file, w'.saved.value)))
  }

  lemma DrainKeepsHonest(w: World, got: nat, reject: Option<nat>, limit: nat)
    requires Honest(w, limit)
    ensures Honest(DrainStep(w, got, reject, limit), limit)
  {
    hide Committed, ChunkLines, Emit, LineStart;
    var read := w.cursor.readOffset;
    var n := Min(got, Min(READ_CHUNK_BYTES, |w.file| - read));
    if n > 0 {
      ChunkLinesGenuine(w.file, w.cursor, read + n, limit);
      CommittedAligned(w.file, w.cursor, read + n, limit);
    }
  }

  lemma StepKeepsHonest(w: World, e: Event, limit: nat)
    requires Honest(w, limit)
    requires e.Restart? && w.saved.Some? ==> LineStart(w.file, w.saved.value)
    ensures Honest(Step(w, e, limit), limit)
  {
    hide DrainStep, Emit, Genuine;
    match e
    case Append(bytes) =>
      GenuineGrows(w.file, bytes, w.published, limit);
      var c := w.cursor;
      assert (w.file + bytes)[c.committedOffset..c.readOffset] == w.file[c.committedOffset..c.readOffset];
    case Drain(got, reject) => DrainKeepsHonest(w, got, reject, limit);
    case Persist(ok) =>
    case Restart =>
  }

  /** Over every run whose restarts resume at line starts, every published line is a line of the
      file within the limit, and the offset committed while not discarding is a line start. */
  lemma {:induction false} OnlyGenuineLines(file: Bytes, events: seq<Event>, limit: nat)
    requires AlignedRestarts(Boot(file, None, []), events, limit)
    ensures var w := Run(Boot(file, None, []), events, limit);
      && Honest(w, limit) && Genuine(w.file, w.published, limit)
      && (!w.cursor.discard ==> LineStart(w.file, w.cursor.committedOffset))
  {
    var w0 := Boot(file, None, []);
    if events == [] {
      var at := w0.cursor.readOffset;
      assert file[at..at] == [];
    } else {
      hide Honest, Step;
      var before, e := events[..|events| - 1], events[|events| - 1];
      OnlyGenuineLines(file, before, limit);
      StepKeepsHonest(Run(w0, before, limit), e, limit);
      HonestMeans(Run(w0, events, limit), limit);
    }
  }

  lemma HonestMeans(w: World, limit: nat)
    requires Honest(w, limit)
    ensures Genuine(w.file, w.published, limit)
    ensures !w.cursor.discard ==> LineStart(w.file, w.cursor.committedOffset)
  {
  }
}
