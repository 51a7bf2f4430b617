// Exactly what one process lifetime of the log tail publishes, whatever the polls, the growth of
// the file, the rejected publishes and the sizes the reads return.
module LogTailExact {
  import opened Bytes
  import opened Wrappers
  import opened LineSplit
  import opened ProcessLogTail

  /** Where the first line this lifetime reads begins: its starting offset, or after the first
      newline when it starts inside the bounded backfill. */
  function FirstLine(file: Bytes, origin: nat, skip: bool, read: nat): nat
    requires origin <= read <= |file|
  {
    var seen := file[origin..read];
    if skip then read - |AfterFirstLf(seen)| else origin
  }

  /** Still before the first newline of a bounded backfill. */
  predicate Seeking(file: Bytes, origin: nat, skip: bool, read: nat)
    requires origin <= read <= |file|
  {
    skip && LF !in file[origin..read]
  }

  /** The cursor that has read `seen`, whose lines begin at file position `first`. */
  ghost predicate Fits(c: Cursor, seen: Bytes, first: nat, seeking: bool, cuts: set<nat>, limit: nat) {
    && c.readOffset == first + |seen|
    && (forall k | k in cuts :: k <= c.readOffset)
    && if seeking then
         c.discard && c.committedOffset == c.readOffset && c.pending == [] && seen == []
       else if c.discard then
         && c.committedOffset == c.readOffset && c.pending == []
         && |Tail(seen)| > limit && c.readOffset in cuts
       else
         && c.pending == Tail(seen) && |c.pending| <= limit
         && c.committedOffset == c.readOffset - |c.pending|
  }

  ghost predicate Reading(w: World, origin: nat, skip: bool, limit: nat) {
    var read := w.cursor.readOffset;
    && origin <= read <= |w.file|
    && var first := FirstLine(w.file, origin, skip, read);
    && first <= read
    && Fits(w.cursor, w.file[first..read], first, Seeking(w.file, origin, skip, read), w.cuts, limit)
  }

  /** What the lifetime should have published by now. */
  function Expected(w: World, origin: nat, skip: bool, limit: nat): seq<Bytes>
    requires origin <= w.cursor.readOffset <= |w.file|
    requires FirstLine(w.file, origin, skip, w.cursor.readOffset) <= w.cursor.readOffset
  {
    var first := FirstLine(w.file, origin, skip, w.cursor.readOffset);
    Emit(w.file[first..w.cursor.readOffset], first, w.cuts, limit)
  }

  /** A chunk read while a line within the limit is pending. */
  lemma PendingChunk(s: Bytes, chunk: Bytes, base: nat, cuts: set<nat>, cuts': set<nat>, limit: nat)
    requires |Tail(s)| <= limit
    requires forall k | k in cuts :: k <= base + |s|
    requires cuts' == cuts + {base + |s| + |chunk|}
    ensures Emit(s + chunk, base, cuts', limit)
         == Emit(s, base, cuts, limit) + Emit(Tail(s) + chunk, 0, {}, limit)
    ensures Tail(s + chunk) == Tail(Tail(s) + chunk)
  {
    hide Emit, InLimit, Kept, Tail;
    var pending := Tail(s);
    TailFacts(s);
    var done := s[..|s| - |pending|];
    assert s == done + pending && s + chunk == done + (pending + chunk);
    assert Tail(done) == [] by {
      if done == [] {
        NothingScanned(limit);
      } else {
        assert done == done[..|done| - 1] + [LF];
        EmitSnoc(done[..|done| - 1], LF, 0, {}, limit);
      }
    }
    TailAtLineStart(done, pending + chunk);
    EmitAppend(done, pending + chunk, base, cuts', limit);
    HarmlessCuts(pending + chunk, base + |done|, cuts', 0, {}, limit);
    NewlineFreeSuffix(done, pending, base, cuts', limit);
    HarmlessCuts(s, base, cuts', base, cuts, limit);
  }

  /** A chunk read while an oversized line is being discarded. */
  lemma DiscardedChunk(s: Bytes, chunk: Bytes, base: nat, cuts: set<nat>, cuts': set<nat>, limit: nat)
    requires |Tail(s)| > limit && base + |s| in cuts
    requires forall k | k in cuts :: k <= base + |s|
    requires cuts' == cuts + {base + |s| + |chunk|}
    ensures Emit(s + chunk, base, cuts', limit)
         == Emit(s, base, cuts, limit) + Emit(AfterFirstLf(chunk), 0, {}, limit)
    ensures Tail(s + chunk) == if LF in chunk then Tail(chunk) else Tail(s) + chunk
  {
    hide Emit, Tail;
    var rest := AfterFirstLf(chunk);
    OversizeLine(s, chunk, base, cuts', limit);
    TailAppend(s, chunk);
    HarmlessCuts(rest, base + |s| + |chunk| - |rest|, cuts', 0, {}, limit);
    HarmlessCuts(s, base, cuts', base, cuts, limit);
  }

  /** A chunk read before the first newline of a bounded backfill. */
  lemma SeekingChunk(chunk: Bytes, base: nat, cuts: set<nat>, cuts': set<nat>, limit: nat)
    requires LF in chunk
    requires forall k | k in cuts :: k <= base
    requires cuts' == cuts + {base + |chunk|}
    ensures Emit(AfterFirstLf(chunk), base + |chunk| - |AfterFirstLf(chunk)|, cuts', limit)
         == Emit(AfterFirstLf(chunk), 0, {}, limit)
    ensures Tail(AfterFirstLf(chunk)) == Tail(chunk)
  {
    hide Emit, Tail;
    var rest := AfterFirstLf(chunk);
    HarmlessCuts(rest, base + |chunk| - |rest|, cuts', 0, {}, limit);
    RestOfChunk(chunk, FirstLf(chunk) + 1);
  }

  lemma ReadGrows(file: Bytes, from: nat, read: nat, chunk: Bytes)
    requires from <= read && read + |chunk| <= |file| && chunk == file[read..read + |chunk|]
    ensures file[from..read + |chunk|] == file[from..read] + chunk
  {
  }

  lemma TailOfChunk(chunk: Bytes)
    ensures LF !in chunk ==> Tail(chunk) == chunk
    ensures |Tail(chunk)| <= |chunk|
  {
    TailFacts(chunk);
    if LF !in chunk {
      TailOfNewlineFree(chunk);
    }
  }

  /** Committing a chunk emits exactly the lines it completes, and the cursor fits again. */
  lemma ChunkFits(c: Cursor, seen: Bytes, first: nat, cuts: set<nat>, chunk: Bytes, limit: nat)
    requires Fits(c, seen, first, false, cuts, limit)
    ensures var c' := Committed(c, chunk, limit);
      var cuts' := cuts + {c'.readOffset};
      && Fits(c', seen + chunk, first, false, cuts', limit)
      && Emit(seen + chunk, first, cuts', limit) == Emit(seen, first, cuts, limit) + ChunkLines(c, chunk, limit)
  {
    hide Emit, Tail, FirstLf;
    var c' := Committed(c, chunk, limit);
    TailOfChunk(chunk);
    if c.discard {
      assert [] + chunk == chunk;
      DiscardedChunk(seen, chunk, first, cuts, cuts + {c'.readOffset}, limit);
    } else {
      PendingChunk(seen, chunk, first, cuts, cuts + {c'.readOffset}, limit);
    }
  }

  lemma ChunkFitsSeeking(c: Cursor, cuts: set<nat>, chunk: Bytes, limit: nat)
    requires Fits(c, [], c.readOffset, true, cuts, limit)
    ensures var c' := Committed(c, chunk, limit);
      var cuts' := cuts + {c'.readOffset};
      var seen := AfterFirstLf(chunk);
      && Fits(c', seen, c'.readOffset - |seen|, LF !in chunk, cuts', limit)
      && Emit(seen, c'.readOffset - |seen|, cuts', limit) == ChunkLines(c, chunk, limit)
  {
    hide Emit, Tail, FirstLf;
    var c' := Committed(c, chunk, limit);
    assert [] + chunk == chunk;
    TailOfChunk(chunk);
    if LF in chunk {
      SeekingChunk(chunk, c.readOffset, cuts, cuts + {c'.readOffset}, limit);
    } else {
      EmitNothing(c'.readOffset, cuts + {c'.readOffset}, limit);
      EmitNothing(0, {}, limit);
    }
  }

  lemma AfterFirstLfIsSuffix(chunk: Bytes)
    ensures |AfterFirstLf(chunk)| <= |chunk|
    ensures AfterFirstLf(chunk) == chunk[|chunk| - |AfterFirstLf(chunk)|..]
  {
    hide FirstLf;
  }

  /** Where the lines begin does not move once the first newline was seen. */
  lemma FirstLineGrows(file: Bytes, origin: nat, skip: bool, read: nat, next: nat)
    requires origin <= read <= next <= |file|
    ensures var first, rest := FirstLine(file, origin, skip, next), AfterFirstLf(file[read..next]);
      if Seeking(file, origin, skip, read) then
        && first == next - |rest| >= read && file[first..next] == rest
        && (Seeking(file, origin, skip, next) <==> LF !in file[read..next])
      else
        && first == FirstLine(file, origin, skip, read) && !Seeking(file, origin, skip, next)
  {
    hide FirstLf, AfterFirstLf;
    var a, b := file[origin..read], file[read..next];
    ReadGrows(file, origin, read, b);
    AfterFirstLfAppend(a, b);
    AfterFirstLfIsSuffix(b);
    assert b[|b| - |AfterFirstLf(b)|..] == file[next - |AfterFirstLf(b)|..next];
  }

  lemma SeekingStartsAtRead(w: World, origin: nat, skip: bool, limit: nat)
    requires Reading(w, origin, skip, limit) && Seeking(w.file, origin, skip, w.cursor.readOffset)
    ensures FirstLine(w.file, origin, skip, w.cursor.readOffset) == w.cursor.readOffset
    ensures Fits(w.cursor, [], w.cursor.readOffset, true, w.cuts, limit)
    ensures Expected(w, origin, skip, limit) == []
  {
    hide Emit, Tail, FirstLf;
    EmitNothing(w.cursor.readOffset, w.cuts, limit);
  }

  lemma CommittedReadOffset(c: Cursor, chunk: Bytes, limit: nat)
    ensures Committed(c, chunk, limit).readOffset == c.readOffset + |chunk|
  {
  }

  /** Committing a chunk extends what was expected by exactly the lines of the chunk. */
  lemma ChunkKeepsReading(w: World, next: nat, origin: nat, skip: bool, limit: nat)
    requires Reading(w, origin, skip, limit) && w.cursor.readOffset <= next <= |w.file|
    ensures var chunk := w.file[w.cursor.readOffset..next];
      var w' := ChunkStep(w, chunk, None, limit);
      && Reading(w', origin, skip, limit)
      && Expected(w', origin, skip, limit)
         == Expected(w, origin, skip, limit) + ChunkLines(w.cursor, chunk, limit)
  {
    hide Emit, Tail, FirstLf, Fits, FirstLine, Seeking, AfterFirstLf, ChunkLines, Committed;
    var read := w.cursor.readOffset;
    var chunk := w.file[read..next];
    var first := FirstLine(w.file, origin, skip, read);
    FirstLineGrows(w.file, origin, skip, read, next);
    CommittedReadOffset(w.cursor, chunk, limit);
    AfterFirstLfIsSuffix(chunk);
    if Seeking(w.file, origin, skip, read) {
      SeekingStartsAtRead(w, origin, skip, limit);
      ChunkFitsSeeking(w.cursor, w.cuts, chunk, limit);
    } else {
      ReadGrows(w.file, first, read, chunk);
      ChunkFits(w.cursor, w.file[first..read], first, w.cuts, chunk, limit);
    }
  }

  // ----- Whole lifetimes -----

  predicate SameLifetime(events: seq<Event>) {
    forall i :: 0 <= i < |events| ==> !events[i].Restart?
  }

  predicate AllPublished(events: seq<Event>) {
    forall i :: 0 <= i < |events| ==> events[i].Drain? ==> events[i].reject.None?
  }

  lemma BootIsReading(file: Bytes, saved: Option<nat>, limit: nat)
    ensures var w := Boot(file, saved, []);
      var origin, skip := w.cursor.readOffset, w.cursor.discard;
      Reading(w, origin, skip, limit) && Expected(w, origin, skip, limit) == []
  {
    var w := Boot(file, saved, []);
    var origin := w.cursor.readOffset;
    assert w.file[origin..origin] == [];
    EmitNothing(origin, {}, limit);
  }

  lemma GrowthKeepsReading(w: World, bytes: Bytes, origin: nat, skip: bool, limit: nat)
    requires Reading(w, origin, skip, limit)
    ensures var w' := w.(file := w.file + bytes);
      && Reading(w', origin, skip, limit)
      && Expected(w', origin, skip, limit) == Expected(w, origin, skip, limit)
  {
    hide Emit, Tail, FirstLf, Fits, AfterFirstLf;
    var read := w.cursor.readOffset;
    assert (w.file + bytes)[origin..read] == w.file[origin..read];
    var first := FirstLine(w.file, origin, skip, read);
    assert (w.file + bytes)[first..read] == w.file[first..read];
  }

  lemma StepKeepsReading(w: World, e: Event, origin: nat, skip: bool, limit: nat)
    requires Reading(w, origin, skip, limit) && !e.Restart?
    ensures var w' := Step(w, e, limit);
      && Reading(w', origin, skip, limit)
      && (w.published == Expected(w, origin, skip, limit) && (e.Drain? ==> e.reject.None?)
          ==> w'.published == Expected(w', origin, skip, limit))
  {
    hide Emit, Tail, FirstLf, Fits, FirstLine, Seeking, ChunkLines, Committed;
    if e.Append? {
      GrowthKeepsReading(w, e.bytes, origin, skip, limit);
    } else if e.Drain? {
      hide Expected;
      var read := w.cursor.readOffset;
      var n := Min(e.got, Min(READ_CHUNK_BYTES, |w.file| - read));
      if n > 0 {
        ChunkKeepsReading(w, read + n, origin, skip, limit);
        if e.reject.Some? && e.reject.value < |ChunkLines(w.cursor, w.file[read..read + n], limit)| {
          SameCursorReads(w, Step(w, e, limit), origin, skip, limit);
        }
      }
    }
  }

  lemma SameCursorReads(w: World, w': World, origin: nat, skip: bool, limit: nat)
    requires Reading(w, origin, skip, limit)
    requires w'.file == w.file && w'.cursor == w.cursor && w'.cuts == w.cuts
    ensures Reading(w', origin, skip, limit)
  {
  }

  /** For every growth of the file, every poll and every read size: as long as no publish was
      rejected, what was published is exactly what the bytes up to the committed offset contain. */
  lemma {:induction false} PublishesExactly(file: Bytes, saved: Option<nat>, events: seq<Event>, limit: nat)
    requires SameLifetime(events)
    ensures var w0 := Boot(file, saved, []);
      var w, origin, skip := Run(w0, events, limit), w0.cursor.readOffset, w0.cursor.discard;
      && Reading(w, origin, skip, limit)
      && (AllPublished(events) ==> w.published == Expected(w, origin, skip, limit))
  {
    var w0 := Boot(file, saved, []);
    var origin, skip := w0.cursor.readOffset, w0.cursor.discard;
    if events == [] {
      BootIsReading(file, saved, limit);
    } else {
      hide Reading, Expected, Step;
      var before := events[..|events| - 1];
      PublishesExactly(file, saved, before, limit);
      assert forall i :: 0 <= i < |before| ==> before[i] == events[i];
      StepKeepsReading(Run(w0, before, limit), events[|events| - 1], origin, skip, limit);
    }
  }

  /** Up to the committed offset nothing is pending: the expectation does not change. */
  lemma ExpectedAtCommitted(w: World, origin: nat, skip: bool, limit: nat)
    requires Reading(w, origin, skip, limit)
    ensures var first := FirstLine(w.file, origin, skip, w.cursor.readOffset);
      && first <= w.cursor.committedOffset <= w.cursor.readOffset
      && w.file[w.cursor.committedOffset..w.cursor.readOffset] == w.cursor.pending && LF !in w.cursor.pending
      && Expected(w, origin, skip, limit)
         == Emit(w.file[first..w.cursor.committedOffset], first, w.cuts, limit)
  {
    hide Emit, InLimit, Kept, Tail, FirstLf;
    var c := w.cursor;
    var first := FirstLine(w.file, origin, skip, c.readOffset);
    var seen := w.file[first..c.readOffset];
    TailFacts(seen);
    var done := w.file[first..c.committedOffset];
    assert seen == done + w.file[c.committedOffset..c.readOffset];
    NewlineFreeSuffix(done, c.pending, first, w.cuts, limit);
  }

  /** A lifetime that reads the file from its first byte. */
  predicate FromStart(file: Bytes, saved: Option<nat>) {
    saved == Some(0) || (saved.None? && |file| <= INITIAL_BACKFILL_BYTES)
  }

  /** The design's promise: with every raw line, CR included, within the limit, one lifetime
      publishes the cleaned split of the file up to the committed offset, whatever the polls. */
  lemma {:induction false} PublishesCleanSplit(file: Bytes, saved: Option<nat>, events: seq<Event>, limit: nat)
    requires SameLifetime(events) && AllPublished(events)
    requires var w0 := Boot(file, saved, []);
      var w := Run(w0, events, limit);
      forall raw | raw in RawLines(w.file) :: Fitting(raw, limit)
    requires FromStart(file, saved)
    ensures var w := Run(Boot(file, saved, []), events, limit);
      && w.cursor.committedOffset <= |w.file|
      && w.published == CleanLines(RawLines(w.file[..w.cursor.committedOffset]))
  {
    hide Emit, InLimit, Kept, Tail, FirstLf, RawLines, CleanLines, Reading, Expected, Run;
    var w := Run(Boot(file, saved, []), events, limit);
    PublishesExactly(file, saved, events, limit);
    ReadingFromStart(w, limit);
    ExpectedAtCommitted(w, 0, false, limit);
    var done := w.file[..w.cursor.committedOffset];
    assert w.file[0..w.cursor.committedOffset] == done;
    assert w.file == done + w.file[w.cursor.committedOffset..];
    RawLinesPrefix(done, w.file[w.cursor.committedOffset..]);
    EmitIsCleanSplit(done, 0, w.cuts, limit);
  }

  lemma ReadingFromStart(w: World, limit: nat)
    requires Reading(w, 0, false, limit)
    ensures w.cursor.readOffset <= |w.file| && FirstLine(w.file, 0, false, w.cursor.readOffset) == 0
  {
  }

  lemma {:induction false} RawLinesPrefix(a: Bytes, b: Bytes)
    ensures forall raw :: raw in RawLines(a) ==> raw in RawLines(a + b)
    decreases |b|
  {
    if b == [] {
      assert a + b == a;
    } else {
      var b' := b[..|b| - 1];
      RawLinesPrefix(a, b');
      assert a + b == (a + b') + [b[|b| - 1]];
      RawLinesSnoc(a + b', b[|b| - 1]);
    }
  }
}
