// In which order the log tail publishes over rejected publishes and restarts: uninterrupted stretches of
// the lines of the file, one more per interruption.
module LogTailReplay {
  import opened Bytes
  import opened Sequences
  import opened Wrappers
  import opened LineSplit
  import opened ProcessLogTail
  import opened LogTailExact
  import opened LogTailRecovery

  /** The first lines from some line start on, in the order of the file, each once. */
  ghost predicate Replay(file: Bytes, part: seq<Bytes>, limit: nat) {
    exists from: nat, cuts: set<nat> ::
      from <= |file| && LineStart(file, from) && part <= Emit(file[from..], from, cuts, limit)
  }

  ghost predicate AllReplays(file: Bytes, parts: seq<seq<Bytes>>, limit: nat) {
    forall part :: part in parts ==> Replay(file, part, limit)
  }

  /** The stretches that ended, and the one under way since `origin`. */
  ghost predicate Replaying(w: World, parts: seq<seq<Bytes>>, origin: nat, skip: bool, limit: nat) {
    && Reading(w, origin, skip, limit)
    && (!skip ==> LineStart(w.file, origin))
    && w.published == Concat(parts) + Expected(w, origin, skip, limit)
    && AllReplays(w.file, parts, limit)
  }

  function Interruptions(events: seq<Event>): nat {
    if events == [] then 0
    else
      var e := events[|events| - 1];
      Interruptions(events[..|events| - 1]) + if e.Restart? || (e.Drain? && e.reject.Some?) then 1 else 0
  }

  lemma ReplayFrom(file: Bytes, part: seq<Bytes>, from: nat, read: nat, cuts: set<nat>, limit: nat)
    requires from <= read <= |file| && LineStart(file, from) && part <= Emit(file[from..read], from, cuts, limit)
    ensures Replay(file, part, limit)
  {
    hide Emit, LineStart;
    assert file[from..] == file[from..read] + file[read..];
    EmitPrefix(file[from..read], file[read..], from, cuts, limit);
  }

  lemma ReplayGrows(file: Bytes, more: Bytes, part: seq<Bytes>, limit: nat)
    requires Replay(file, part, limit)
    ensures Replay(file + more, part, limit)
  {
    hide Emit;
    var from: nat, cuts: set<nat> :|
      from <= |file| && LineStart(file, from) && part <= Emit(file[from..], from, cuts, limit);
    assert (file + more)[from..|file|] == file[from..];
    ReplayFrom(file + more, part, from, |file|, cuts, limit);
  }

  /** The stretch under way begins at a line start. */
  lemma FirstLineIsStart(w: World, origin: nat, skip: bool, limit: nat)
    requires Reading(w, origin, skip, limit) && (!skip ==> LineStart(w.file, origin))
    requires !Seeking(w.file, origin, skip, w.cursor.readOffset)
    ensures LineStart(w.file, FirstLine(w.file, origin, skip, w.cursor.readOffset))
  {
    hide FirstLf;
    if skip {
      var seen := w.file[origin..w.cursor.readOffset];
      assert seen[FirstLf(seen)] == w.file[origin + FirstLf(seen)];
    }
  }

  lemma UnderWay(w: World, origin: nat, skip: bool, part: seq<Bytes>, limit: nat)
    requires Reading(w, origin, skip, limit) && (!skip ==> LineStart(w.file, origin))
    requires part <= Expected(w, origin, skip, limit)
    ensures Replay(w.file, part, limit)
  {
    hide Emit, Tail, FirstLf, FirstLine, LineStart, Replay, Fits;
    if Seeking(w.file, origin, skip, w.cursor.readOffset) {
      SeekingStartsAtRead(w, origin, skip, limit);
      FromTheTop(w.file, limit);
    } else {
      FirstLineIsStart(w, origin, skip, limit);
      var first := FirstLine(w.file, origin, skip, w.cursor.readOffset);
      ReplayFrom(w.file, part, first, w.cursor.readOffset, w.cuts, limit);
    }
  }

  lemma FromTheTop(file: Bytes, limit: nat)
    ensures Replay(file, [], limit)
  {
    assert [] <= Emit(file[0..], 0, {}, limit);
  }

  /** After a rejected publish the cursor reads on from its own line start, or seeks the next one. */
  lemma RejectedStartsAnew(w: World, origin: nat, skip: bool, limit: nat)
    requires Reading(w, origin, skip, limit) && (!skip ==> LineStart(w.file, origin))
    ensures var c := w.cursor;
      && Reading(w, c.committedOffset, c.discard, limit)
      && Expected(w, c.committedOffset, c.discard, limit) == []
      && (!c.discard ==> LineStart(w.file, c.committedOffset))
  {
    var c := w.cursor;
    if c.discard {
      assert w.file[c.readOffset..c.readOffset] == [];
    } else {
      hide Emit;
      FirstLineIsStart(w, origin, skip, limit);
      PendingStandsAlone(w, origin, skip, limit);
    }
  }

  lemma PendingStandsAlone(w: World, origin: nat, skip: bool, limit: nat)
    requires Reading(w, origin, skip, limit) && !w.cursor.discard
    requires LineStart(w.file, FirstLine(w.file, origin, skip, w.cursor.readOffset))
    ensures var c := w.cursor;
      && Reading(w, c.committedOffset, false, limit)
      && Expected(w, c.committedOffset, false, limit) == []
      && LineStart(w.file, c.committedOffset)
  {
    hide Emit, Tail, FirstLine, Seeking, LineStart, Expected, Fits;
    var c := w.cursor;
    var first := FirstLine(w.file, origin, skip, c.readOffset);
    ExpectedAtCommitted(w, origin, skip, limit);
    PendingFits(c, w.file[first..c.readOffset], first, w.cuts, limit);
    PendingStartsLine(w.file, first, c.committedOffset, c.readOffset);
    ReadingFrom(w, c.committedOffset, limit);
  }

  lemma PendingFits(c: Cursor, seen: Bytes, first: nat, cuts: set<nat>, limit: nat)
    requires (exists seeking :: Fits(c, seen, first, seeking, cuts, limit)) && !c.discard
    ensures c.pending == Tail(seen) && Fits(c, c.pending, c.committedOffset, false, cuts, limit)
    ensures Emit(c.pending, c.committedOffset, cuts, limit) == []
  {
    hide Emit, Tail, InLimit;
    TailFacts(seen);
    TailOfNewlineFree(c.pending);
    NewlineFreeSuffix([], c.pending, c.committedOffset, cuts, limit);
    EmitNothing(c.committedOffset, cuts, limit);
    assert [] + c.pending == c.pending;
  }

  lemma PendingStartsLine(file: Bytes, first: nat, at: nat, read: nat)
    requires first <= at <= read <= |file| && LineStart(file, first)
    requires file[at..read] == Tail(file[first..read])
    ensures LineStart(file, at)
  {
    hide Tail;
    var seen := file[first..read];
    TailFacts(seen);
    if first < at {
      assert seen[at - first - 1] == file[at - 1];
    }
  }

  lemma ReadingFrom(w: World, at: nat, limit: nat)
    requires at <= w.cursor.readOffset <= |w.file|
    requires Fits(w.cursor, w.file[at..w.cursor.readOffset], at, false, w.cuts, limit)
    ensures Reading(w, at, false, limit)
    ensures Expected(w, at, false, limit) == Emit(w.file[at..w.cursor.readOffset], at, w.cuts, limit)
  {
    hide Fits, Emit;
  }

  lemma AllReplaysSnoc(file: Bytes, parts: seq<seq<Bytes>>, part: seq<Bytes>, limit: nat)
    requires AllReplays(file, parts, limit) && Replay(file, part, limit)
    ensures AllReplays(file, parts + [part], limit)
  {
  }

  /** A rejected publish ends the stretch with what it published of the chunk. */
  lemma RejectedReplays(w: World, parts: seq<seq<Bytes>>, origin: nat, skip: bool, chunk: Bytes, k: nat, limit: nat)
    requires Replaying(w, parts, origin, skip, limit)
    requires w.cursor.readOffset + |chunk| <= |w.file|
    requires chunk == w.file[w.cursor.readOffset..w.cursor.readOffset + |chunk|]
    requires k < |ChunkLines(w.cursor, chunk, limit)|
    ensures var part := Expected(w, origin, skip, limit) + ChunkLines(w.cursor, chunk, limit)[..k];
      Replaying(ChunkStep(w, chunk, Some(k), limit), parts + [part], w.cursor.committedOffset, w.cursor.discard, limit)
  {
    hide Emit, Reading, ChunkLines, Committed, Expected, Replay, LineStart, AllReplays;
    ReadingInside(w, origin, skip, limit);
    var lines := ChunkLines(w.cursor, chunk, limit);
    var part := Expected(w, origin, skip, limit) + lines[..k];
    RejectedPart(w, origin, skip, chunk, k, limit);
    RejectedStartsAnew(w, origin, skip, limit);
    ConcatSnoc(parts, part);
    AllReplaysSnoc(w.file, parts, part, limit);
    SamePlace(w, ChunkStep(w, chunk, Some(k), limit), w.cursor.committedOffset, w.cursor.discard, limit);
    ConcatAssoc(Concat(parts), Expected(w, origin, skip, limit), lines[..k]);
    assert Concat(parts + [part]) + [] == Concat(parts) + part;
  }

  lemma RejectedPart(w: World, origin: nat, skip: bool, chunk: Bytes, k: nat, limit: nat)
    requires Reading(w, origin, skip, limit) && (!skip ==> LineStart(w.file, origin))
    requires w.cursor.readOffset + |chunk| <= |w.file|
    requires chunk == w.file[w.cursor.readOffset..w.cursor.readOffset + |chunk|]
    requires k < |ChunkLines(w.cursor, chunk, limit)|
    ensures Replay(w.file, Expected(w, origin, skip, limit) + ChunkLines(w.cursor, chunk, limit)[..k], limit)
  {
    hide Emit, Reading, ChunkLines, Committed, Expected, Replay, LineStart;
    ReadingInside(w, origin, skip, limit);
    ChunkKeepsReading(w, w.cursor.readOffset + |chunk|, origin, skip, limit);
    var before, lines := Expected(w, origin, skip, limit), ChunkLines(w.cursor, chunk, limit);
    PrefixOfSum(before, lines, k);
    UnderWay(ChunkStep(w, chunk, None, limit), origin, skip, before + lines[..k], limit);
  }

  lemma PrefixOfSum<T>(a: seq<T>, b: seq<T>, k: nat)
    requires k <= |b|
    ensures a + b[..k] <= a + b
  {
  }

  /** A stretch goes on with the lines of a chunk. */
  lemma ChunkReplays(w: World, parts: seq<seq<Bytes>>, origin: nat, skip: bool, chunk: Bytes, limit: nat)
    requires Replaying(w, parts, origin, skip, limit)
    requires w.cursor.readOffset + |chunk| <= |w.file|
    requires chunk == w.file[w.cursor.readOffset..w.cursor.readOffset + |chunk|]
    ensures Replaying(ChunkStep(w, chunk, None, limit), parts, origin, skip, limit)
  {
    hide Emit, Reading, ChunkLines, Committed, Expected, Replay, LineStart, AllReplays;
    ReadingInside(w, origin, skip, limit);
    ChunkKeepsReading(w, w.cursor.readOffset + |chunk|, origin, skip, limit);
    ConcatAssoc(Concat(parts), Expected(w, origin, skip, limit), ChunkLines(w.cursor, chunk, limit));
  }

  function Rejection(w: World, chunk: Bytes, reject: Option<nat>, limit: nat): Option<nat> {
    if reject.Some? && reject.value < |ChunkLines(w.cursor, chunk, limit)| then reject else None
  }

  lemma DrainShape(w: World, got: nat, reject: Option<nat>, limit: nat) returns (n: nat)
    requires w.cursor.readOffset <= |w.file|
    ensures w.cursor.readOffset + n <= |w.file|
    ensures var chunk := w.file[w.cursor.readOffset..w.cursor.readOffset + n];
      DrainStep(w, got, reject, limit)
      == if n == 0 then w else ChunkStep(w, chunk, Rejection(w, chunk, reject, limit), limit)
  {
    hide ChunkLines, Committed;
    n := Min(got, Min(READ_CHUNK_BYTES, |w.file| - w.cursor.readOffset));
  }

  lemma DrainReplays(w: World, parts: seq<seq<Bytes>>, origin: nat, skip: bool, got: nat, reject: Option<nat>,
                     limit: nat) returns (parts': seq<seq<Bytes>>, origin': nat, skip': bool)
    requires Replaying(w, parts, origin, skip, limit)
    ensures Replaying(DrainStep(w, got, reject, limit), parts', origin', skip', limit)
    ensures |parts'| <= |parts| + if reject.Some? then 1 else 0
  {
    hide DrainStep, ChunkStep, ChunkLines, Expected, Replaying;
    ReplayingInside(w, parts, origin, skip, limit);
    var n := DrainShape(w, got, reject, limit);
    parts', origin', skip' := parts, origin, skip;
    if n > 0 {
      var chunk := w.file[w.cursor.readOffset..w.cursor.readOffset + n];
      var rejected := Rejection(w, chunk, reject, limit);
      if rejected.Some? {
        RejectedReplays(w, parts, origin, skip, chunk, rejected.value, limit);
        var part := Expected(w, origin, skip, limit) + ChunkLines(w.cursor, chunk, limit)[..rejected.value];
        parts', origin', skip' := parts + [part], w.cursor.committedOffset, w.cursor.discard;
      } else {
        ChunkReplays(w, parts, origin, skip, chunk, limit);
      }
    }
  }

  lemma ReplayingInside(w: World, parts: seq<seq<Bytes>>, origin: nat, skip: bool, limit: nat)
    requires Replaying(w, parts, origin, skip, limit)
    ensures origin <= w.cursor.readOffset <= |w.file|
    ensures FirstLine(w.file, origin, skip, w.cursor.readOffset) <= w.cursor.readOffset
  {
    ReadingInside(w, origin, skip, limit);
  }

  /** What was published does not matter for where the cursor is. */
  lemma SamePlace(w: World, w': World, origin: nat, skip: bool, limit: nat)
    requires Reading(w, origin, skip, limit)
    requires w'.file == w.file && w'.cursor == w.cursor && w'.cuts == w.cuts
    ensures Reading(w', origin, skip, limit)
    ensures Expected(w', origin, skip, limit) == Expected(w, origin, skip, limit)
  {
  }

  lemma GrowthReplays(w: World, parts: seq<seq<Bytes>>, origin: nat, skip: bool, bytes: Bytes, limit: nat)
    requires Replaying(w, parts, origin, skip, limit)
    ensures Replaying(w.(file := w.file + bytes), parts, origin, skip, limit)
  {
    hide Expected, Replay, Reading;
    GrowthKeepsReading(w, bytes, origin, skip, limit);
    forall part | part in parts ensures Replay(w.file + bytes, part, limit) {
      ReplayGrows(w.file, bytes, part, limit);
    }
    ReadingInside(w, origin, skip, limit);
  }

  lemma ReadingInside(w: World, origin: nat, skip: bool, limit: nat)
    requires Reading(w, origin, skip, limit)
    ensures origin <= w.cursor.readOffset <= |w.file|
    ensures FirstLine(w.file, origin, skip, w.cursor.readOffset) <= w.cursor.readOffset
  {
  }

  /** A restart ends the stretch under way. */
  lemma RestartReplays(w: World, parts: seq<seq<Bytes>>, origin: nat, skip: bool, limit: nat)
    returns (parts': seq<seq<Bytes>>, origin': nat, skip': bool)
    requires Replaying(w, parts, origin, skip, limit)
    requires w.saved.Some? ==> w.saved.value <= |w.file| && LineStart(w.file, w.saved.value)
    ensures Replaying(Boot(w.file, w.saved, w.published), parts', origin', skip', limit) && |parts'| == |parts| + 1
  {
    hide Emit, Expected, Replay, Reading, AllReplays;
    ReadingInside(w, origin, skip, limit);
    var part := Expected(w, origin, skip, limit);
    UnderWay(w, origin, skip, part, limit);
    ConcatSnoc(parts, part);
    AllReplaysSnoc(w.file, parts, part, limit);
    BootIsReading(w.file, w.saved, limit);
    var empty, after := Boot(w.file, w.saved, []), Boot(w.file, w.saved, w.published);
    parts', origin', skip' := parts + [part], empty.cursor.readOffset, empty.cursor.discard;
    SamePlace(empty, after, origin', skip', limit);
    assert Concat(parts') + [] == Concat(parts) + part;
  }

  lemma StepReplays(w: World, parts: seq<seq<Bytes>>, origin: nat, skip: bool, e: Event, limit: nat)
    returns (parts': seq<seq<Bytes>>, origin': nat, skip': bool)
    requires Replaying(w, parts, origin, skip, limit)
    requires e.Restart? && w.saved.Some? ==> w.saved.value <= |w.file| && LineStart(w.file, w.saved.value)
    ensures Replaying(Step(w, e, limit), parts', origin', skip', limit)
    ensures |parts'| <= |parts| + if e.Restart? || (e.Drain? && e.reject.Some?) then 1 else 0
  {
    parts', origin', skip' := parts, origin, skip;
    match e
    case Append(bytes) =>
      hide *;
      GrowthReplays(w, parts, origin, skip, bytes, limit);
    case Drain(got, reject) =>
      hide *;
      parts', origin', skip' := DrainReplays(w, parts, origin, skip, got, reject, limit);
    case Persist(ok) =>
      hide Expected, AllReplays, Reading;
      SamePlace(w, Step(w, e, limit), origin, skip, limit);
    case Restart =>
      hide *;
      parts', origin', skip' := RestartReplays(w, parts, origin, skip, limit);
  }

  lemma HonestSaved(w: World, limit: nat)
    requires Honest(w, limit)
    ensures w.saved.Some? ==> w.saved.value <= |w.file|
  {
  }

  lemma {:induction false} RunReplays(file: Bytes, events: seq<Event>, limit: nat)
    returns (parts: seq<seq<Bytes>>, origin: nat, skip: bool)
    requires AlignedRestarts(Boot(file, None, []), events, limit)
    ensures Replaying(Run(Boot(file, None, []), events, limit), parts, origin, skip, limit)
    ensures |parts| <= Interruptions(events)
  {
    var w0 := Boot(file, None, []);
    if events == [] {
      hide Emit, Reading, Expected, Replay;
      BootIsReading(file, None, limit);
      parts, origin, skip := [], w0.cursor.readOffset, w0.cursor.discard;
    } else {
      hide Step, Replaying, Honest, Boot, LineStart;
      var before, e := events[..|events| - 1], events[|events| - 1];
      parts, origin, skip := RunReplays(file, before, limit);
      OnlyGenuineLines(file, before, limit);
      HonestSaved(Run(w0, before, limit), limit);
      parts, origin, skip := StepReplays(Run(w0, before, limit), parts, origin, skip, e, limit);
    }
  }

  /** Over every run whose restarts resume at line starts, what was published is, in order, one stretch
      of the file's lines after the other, each from a line start on and in file order, with at most one
      more stretch than there were restarts and rejected publishes. */
  lemma {:induction false} PublishesInOrder(file: Bytes, events: seq<Event>, limit: nat)
    requires AlignedRestarts(Boot(file, None, []), events, limit)
    ensures var w := Run(Boot(file, None, []), events, limit);
      exists parts ::
        Concat(parts) == w.published && |parts| <= Interruptions(events) + 1 && AllReplays(w.file, parts, limit)
  {
    hide Run, Reading, Expected, Replay, AllReplays, LineStart;
    var w := Run(Boot(file, None, []), events, limit);
    var parts, origin, skip := RunReplays(file, events, limit);
    ReadingInside(w, origin, skip, limit);
    var part := Expected(w, origin, skip, limit);
    UnderWay(w, origin, skip, part, limit);
    ConcatSnoc(parts, part);
    AllReplaysSnoc(w.file, parts, part, limit);
    assert Concat(parts + [part]) == w.published;
  }
}
