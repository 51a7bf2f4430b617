// What persisted offsets are for: a restart resumes at the committed offset, and as long as offsets are
// written before a restart, every line is published exactly once.
module LogTailOnce {
  import opened Bytes
  import opened Sequences
  import opened Wrappers
  import opened LineSplit
  import opened ProcessLogTail
  import opened LogTailExact
  import opened LogTailRecovery
  import opened LogTailCuts

  // ----- What is saved -----

  /** The table holds the committed offset, and unless it is to be written, so does the state file. */
  predicate InStep(w: World) {
    && w.offset == Some(w.cursor.committedOffset)
    && w.cursor.committedOffset <= w.cursor.readOffset <= |w.file|
    && (!w.dirty ==> w.saved == w.offset)
    && w.saved.Some? && w.saved.value <= |w.file|
  }

  lemma ChunkInStep(w: World, chunk: Bytes, reject: Option<nat>, limit: nat)
    requires InStep(w) && w.cursor.readOffset + |chunk| <= |w.file|
    ensures InStep(ChunkStep(w, chunk, reject, limit))
  {
    hide Emit, Tail;
    TailFacts(w.cursor.pending + chunk);
  }

  lemma StepInStep(w: World, e: Event, limit: nat)
    requires InStep(w)
    ensures InStep(Step(w, e, limit))
  {
    hide ChunkStep;
    if e.Drain? {
      var read := w.cursor.readOffset;
      var n := Min(e.got, Min(READ_CHUNK_BYTES, |w.file| - read));
      if n > 0 {
        ChunkInStep(w, w.file[read..read + n], e.reject, limit);
      }
    }
  }

  lemma {:induction false} RunInStep(w: World, events: seq<Event>, limit: nat)
    requires InStep(w)
    ensures InStep(Run(w, events, limit))
  {
    if events != [] {
      hide InStep, Step;
      RunInStep(w, events[..|events| - 1], limit);
      StepInStep(Run(w, events[..|events| - 1], limit), events[|events| - 1], limit);
    }
  }

  /** After any run from a saved offset, with rejected publishes, failed writes, discarded lines and earlier
      restarts: a successful write saves the committed offset, and a restart then resumes exactly there. */
  lemma {:induction false} PersistedRestartResumes(file: Bytes, at: nat, events: seq<Event>, limit: nat)
    requires at <= |file|
    ensures var w := Run(Boot(file, Some(at), []), events, limit);
      var saved := Step(w, Persist(true), limit);
      var again := Step(saved, Restart, limit);
      && saved.saved == Some(w.cursor.committedOffset) && !saved.dirty
      && again.cursor == At(w.cursor.committedOffset, w.cursor.committedOffset, [], false)
      && again.published == w.published && again.file == w.file
  {
    hide Run;
    RunInStep(Boot(file, Some(at), []), events, limit);
  }

  // ----- What is published after a restart -----

  lemma ChunkAppends(w: World, chunk: Bytes, reject: Option<nat>, before: seq<Bytes>, limit: nat)
    ensures ChunkStep(w.(published := before + w.published), chunk, reject, limit)
         == ChunkStep(w, chunk, reject, limit).(published := before + ChunkStep(w, chunk, reject, limit).published)
  {
    hide ChunkLines, Committed;
    var lines := ChunkLines(w.cursor, chunk, limit);
    ConcatAssoc(before, w.published, lines);
    if reject.Some? && reject.value < |lines| {
      ConcatAssoc(before, w.published, lines[..reject.value]);
    }
  }

  lemma StepAppends(w: World, e: Event, before: seq<Bytes>, limit: nat)
    ensures Step(w.(published := before + w.published), e, limit)
         == Step(w, e, limit).(published := before + Step(w, e, limit).published)
  {
    hide ChunkStep;
    if e.Drain? {
      var c := AfterTruncation(w.cursor, |w.file|);
      var n := Min(e.got, Min(READ_CHUNK_BYTES, |w.file| - c.readOffset));
      if n > 0 {
        ChunkAppends(w.(cursor := c), w.file[c.readOffset..c.readOffset + n], e.reject, before, limit);
      }
    }
  }

  /** What was published before does not matter for what follows. */
  lemma {:induction false} RunAppends(w: World, events: seq<Event>, before: seq<Bytes>, limit: nat)
    ensures Run(w.(published := before + w.published), events, limit)
         == Run(w, events, limit).(published := before + Run(w, events, limit).published)
  {
    if events != [] {
      hide Step;
      RunAppends(w, events[..|events| - 1], before, limit);
      StepAppends(Run(w, events[..|events| - 1], limit), events[|events| - 1], before, limit);
    }
  }

  /** And the lifetime after that restart publishes exactly the lines from the committed offset on: none
      of the lines before it again, and none of those behind it twice. */
  lemma {:induction false} NothingIsRepeated(file: Bytes, at: nat, events: seq<Event>, more: seq<Event>, limit: nat)
    requires at <= |file| && SameLifetime(more) && AllPublished(more)
    ensures var w := Run(Boot(file, Some(at), []), events, limit);
      var after := Run(Step(Step(w, Persist(true), limit), Restart, limit), more, limit);
      && w.cursor.committedOffset <= after.cursor.readOffset <= |after.file|
      && after.published
         == w.published + Emit(after.file[w.cursor.committedOffset..after.cursor.readOffset],
                               w.cursor.committedOffset, after.cuts, limit)
  {
    hide Run, Emit, Reading, Expected, FirstLine, Step, Boot;
    var w := Run(Boot(file, Some(at), []), events, limit);
    var start := w.cursor.committedOffset;
    RestartIsBoot(file, at, events, limit);
    var reborn := Boot(w.file, Some(start), []);
    RunAppends(reborn, more, w.published, limit);
    PublishesExactly(w.file, Some(start), more, limit);
    BootAt(w.file, start);
    ExpectedFromBoot(Run(reborn, more, limit), start, limit);
    assert w.published + [] == w.published;
  }

  lemma RestartIsBoot(file: Bytes, at: nat, events: seq<Event>, limit: nat)
    requires at <= |file|
    ensures var w := Run(Boot(file, Some(at), []), events, limit);
      && w.cursor.committedOffset <= |w.file|
      && Step(Step(w, Persist(true), limit), Restart, limit)
         == Boot(w.file, Some(w.cursor.committedOffset), []).(published := w.published)
  {
    hide Run;
    RunInStep(Boot(file, Some(at), []), events, limit);
  }

  lemma BootAt(file: Bytes, at: nat)
    requires at <= |file|
    ensures Boot(file, Some(at), []).cursor == At(at, at, [], false) && Boot(file, Some(at), []).published == []
  {
  }

  lemma ExpectedFromBoot(w: World, start: nat, limit: nat)
    requires Reading(w, start, false, limit)
    ensures start <= w.cursor.readOffset <= |w.file|
    ensures FirstLine(w.file, start, false, w.cursor.readOffset) == start
    ensures Expected(w, start, false, limit) == Emit(w.file[start..w.cursor.readOffset], start, w.cuts, limit)
  {
    hide Emit, Fits;
  }

  // ----- Exactly once -----

  /** Every line of the file, the unfinished one included, is within the limit. */
  predicate WithinLimit(s: Bytes, limit: nat) {
    (forall raw :: raw in RawLines(s) ==> |raw| <= limit) && |Tail(s)| <= limit
  }

  lemma {:induction false} PrefixWithin(a: Bytes, b: Bytes, limit: nat)
    requires WithinLimit(a + b, limit)
    ensures WithinLimit(a, limit)
    decreases |b|
  {
    if b == [] {
      assert a + b == a;
    } else {
      hide RawLines, Tail;
      var front, x := b[..|b| - 1], b[|b| - 1];
      assert a + b == (a + front) + [x];
      RawLinesSnoc(a + front, x);
      if x == LF {
        assert Tail(a + front) in RawLines(a + b);
      }
      PrefixWithin(a, front, limit);
    }
  }

  /** The cursor stands behind the lines that were published, each once. */
  predicate Once(w: World, limit: nat) {
    var c := w.cursor;
    && InStep(w) && !c.discard && LineStart(w.file, c.committedOffset)
    && c.pending == w.file[c.committedOffset..c.readOffset] && LF !in c.pending
    && w.published == Emit(w.file[..c.committedOffset], 0, {}, limit)
  }

  lemma ChunkOnce(w: World, next: nat, limit: nat)
    requires Once(w, limit) && WithinLimit(w.file, limit) && w.cursor.readOffset <= next <= |w.file|
    ensures Once(ChunkStep(w, w.file[w.cursor.readOffset..next], None, limit), limit)
  {
    hide Emit, InLimit, Tail, WithinLimit, LineStart, RawLines;
    var c := w.cursor;
    var chunk, done := w.file[c.readOffset..next], w.file[..c.committedOffset];
    var combined := w.file[c.committedOffset..next];
    assert c.pending + chunk == combined && done + combined == w.file[..next];
    TailAtStart(w.file, c.committedOffset);
    TailAtLineStart(done, combined);
    assert w.file == w.file[..next] + w.file[next..];
    PrefixWithin(w.file[..next], w.file[next..], limit);
    WithinTail(w.file[..next], limit);
    EmitAppend(done, combined, 0, {}, limit);
    HarmlessCuts(combined, c.committedOffset, {}, 0, {}, limit);
    TailFacts(combined);
    var committed := next - |Tail(combined)|;
    assert w.file[..next] == w.file[..committed] + Tail(combined);
    NewlineFreeSuffix(w.file[..committed], Tail(combined), 0, {}, limit);
    CommittedAligned(w.file, c, next, limit);
    ChunkInStep(w, chunk, None, limit);
  }

  lemma WithinTail(s: Bytes, limit: nat)
    requires WithinLimit(s, limit)
    ensures |Tail(s)| <= limit
  {
  }

  lemma AppendOnce(w: World, bytes: Bytes, limit: nat)
    requires Once(w, limit)
    ensures Once(w.(file := w.file + bytes), limit)
  {
    hide Emit;
    var c := w.cursor;
    assert (w.file + bytes)[..c.committedOffset] == w.file[..c.committedOffset];
    assert (w.file + bytes)[c.committedOffset..c.readOffset] == w.file[c.committedOffset..c.readOffset];
  }

  /** Every restart finds the offsets written. */
  predicate WrittenRestarts(w: World, events: seq<Event>, limit: nat) {
    events == []
    || (WrittenRestarts(w, events[..|events| - 1], limit)
        && (events[|events| - 1].Restart? ==> !Run(w, events[..|events| - 1], limit).dirty))
  }

  lemma DrainOnce(w: World, got: nat, limit: nat)
    requires Once(w, limit) && WithinLimit(w.file, limit)
    ensures Once(DrainStep(w, got, None, limit), limit)
  {
    hide Once, ChunkStep, WithinLimit;
    OnceInside(w, limit);
    var read := w.cursor.readOffset;
    var n := Min(got, Min(READ_CHUNK_BYTES, |w.file| - read));
    if n > 0 {
      ChunkOnce(w, read + n, limit);
    }
  }

  lemma OnceInside(w: World, limit: nat)
    requires Once(w, limit)
    ensures w.cursor.readOffset <= |w.file|
  {
  }

  lemma RestartOnce(w: World, limit: nat)
    requires Once(w, limit) && !w.dirty
    ensures Once(Boot(w.file, w.saved, w.published), limit)
  {
    hide Emit, LineStart;
    var at := w.cursor.committedOffset;
    assert w.file[at..at] == [];
  }

  lemma PersistOnce(w: World, ok: bool, limit: nat)
    requires Once(w, limit)
    ensures Once(Step(w, Persist(ok), limit), limit)
  {
    hide Emit, LineStart, DrainStep, Boot;
  }

  lemma StepOnce(w: World, e: Event, limit: nat)
    requires Once(w, limit) && WithinLimit(w.file, limit)
    requires (e.Drain? ==> e.reject.None?) && (e.Restart? ==> !w.dirty)
    ensures Once(Step(w, e, limit), limit)
  {
    hide Once, WithinLimit, DrainStep, Boot;
    match e
    case Append(bytes) => AppendOnce(w, bytes, limit);
    case Drain(got, _) => DrainOnce(w, got, limit);
    case Persist(ok) => PersistOnce(w, ok, limit);
    case Restart => RestartOnce(w, limit);
  }

  lemma StepGrows(w: World, e: Event, limit: nat)
    ensures w.file <= Step(w, e, limit).file
  {
    hide ChunkStep;
    if e.Drain? {
      var c := AfterTruncation(w.cursor, |w.file|);
      ChunkKeepsFile(w.(cursor := c), e.reject, limit);
    }
  }

  lemma ChunkKeepsFile(w: World, reject: Option<nat>, limit: nat)
    ensures forall chunk :: ChunkStep(w, chunk, reject, limit).file == w.file
  {
    hide ChunkLines, Committed;
  }

  lemma {:induction false} RunOnce(file: Bytes, events: seq<Event>, limit: nat)
    requires AllPublished(events) && WrittenRestarts(Boot(file, Some(0), []), events, limit)
    requires WithinLimit(Run(Boot(file, Some(0), []), events, limit).file, limit)
    ensures Once(Run(Boot(file, Some(0), []), events, limit), limit)
  {
    var w0 := Boot(file, Some(0), []);
    if events == [] {
      hide Tail, RawLines;
      EmitNothing(0, {}, limit);
      assert file[..0] == [] && file[0..0] == [];
    } else {
      hide Once, Step, WithinLimit;
      var before, e := events[..|events| - 1], events[|events| - 1];
      assert forall i :: 0 <= i < |before| ==> before[i] == events[i];
      var w := Run(w0, before, limit);
      StepGrows(w, e, limit);
      var whole := Step(w, e, limit).file;
      assert whole == w.file + whole[|w.file|..];
      PrefixWithin(w.file, whole[|w.file|..], limit);
      RunOnce(file, before, limit);
      StepOnce(w, e, limit);
    }
  }

  /** With every line within the limit, no rejected publish, and offsets written before every restart, any
      number of restarts publishes exactly the cleaned split of the file, each line once. */
  lemma {:induction false} ExactlyOnce(file: Bytes, events: seq<Event>, limit: nat)
    requires AllPublished(events) && WrittenRestarts(Boot(file, Some(0), []), events, limit)
    requires WithinLimit(Run(Boot(file, Some(0), []), events, limit).file, limit)
    ensures var w := Run(Boot(file, Some(0), []), events, limit);
      && w.cursor.committedOffset <= |w.file|
      && w.published == CleanLines(RawLines(w.file[..w.cursor.committedOffset]))
  {
    hide Run, Emit, RawLines, CleanLines, Tail, LineStart;
    RunOnce(file, events, limit);
    var w := Run(Boot(file, Some(0), []), events, limit);
    var done := w.file[..w.cursor.committedOffset];
    assert w.file == done + w.file[w.cursor.committedOffset..];
    PrefixWithin(done, w.file[w.cursor.committedOffset..], limit);
    EmitIsCleanSplit(done, 0, {}, limit);
  }

  // ----- From the writer's lines to the published ones -----

  /** A line as a program writes it, and whether it ends in CR LF or in LF. */
  datatype Line = Line(text: Bytes, crlf: bool)

  predicate Writable(l: Line) {
    0x0a !in l.text && (l.text != [] ==> l.text[|l.text| - 1] != 0x0d)
  }

  function Raw(l: Line): Bytes {
    if l.crlf then l.text + [0x0d] else l.text
  }

  function WrittenFile(lines: seq<Line>): Bytes {
    if lines == [] then [] else WrittenFile(lines[..|lines| - 1]) + Raw(lines[|lines| - 1]) + [0x0a]
  }

  /** The texts that are not empty. */
  function Texts(lines: seq<Line>): seq<Bytes> {
    if lines == [] then []
    else
      var text := lines[|lines| - 1].text;
      Texts(lines[..|lines| - 1]) + if text == [] then [] else [text]
  }

  lemma RawIsText(l: Line)
    requires Writable(l)
    ensures LF !in Raw(l) && StripCr(Raw(l)) == l.text
  {
    if l.crlf {
      assert Raw(l)[..|l.text|] == l.text;
    }
  }

  /** Splitting and cleaning a written file gives back the texts. */
  lemma {:induction false} WrittenIsClean(lines: seq<Line>)
    requires forall l :: l in lines ==> Writable(l)
    ensures CleanLines(RawLines(WrittenFile(lines))) == Texts(lines) && Tail(WrittenFile(lines)) == []
  {
    if lines != [] {
      hide RawLines, CleanLines, Tail, Raw, StripCr, Writable;
      var front, l := lines[..|lines| - 1], lines[|lines| - 1];
      WrittenIsClean(front);
      RawIsText(l);
      LineIsAppended(WrittenFile(front), Raw(l));
      CleanedLast(RawLines(WrittenFile(front)), Raw(l));
    } else {
      assert RawLines([]) == [];
    }
  }

  lemma LineIsAppended(file: Bytes, raw: Bytes)
    requires Tail(file) == [] && LF !in raw
    ensures RawLines(file + raw + [LF]) == RawLines(file) + [raw] && Tail(file + raw + [LF]) == []
  {
    hide RawLines, Tail;
    RawLinesOfRest(file, raw);
    TailAppend(file, raw);
    assert [] + raw == raw;
    RawLinesSnoc(file + raw, LF);
  }

  lemma CleanedLast(raws: seq<Bytes>, raw: Bytes)
    ensures CleanLines(raws + [raw]) == CleanLines(raws) + if StripCr(raw) == [] then [] else [StripCr(raw)]
  {
    hide StripCr;
    assert (raws + [raw])[..|raws|] == raws;
  }

  /** Once everything was read, what was published of a file of written lines within the limit is exactly
      their texts, however it grew, was read, and was resumed after restarts. */
  lemma {:induction false} WrittenIsPublished(file: Bytes, events: seq<Event>, lines: seq<Line>, limit: nat)
    requires AllPublished(events) && WrittenRestarts(Boot(file, Some(0), []), events, limit)
    requires forall l :: l in lines ==> Writable(l)
    requires var w := Run(Boot(file, Some(0), []), events, limit);
      w.file == WrittenFile(lines) && w.cursor.readOffset == |w.file| && WithinLimit(w.file, limit)
    ensures Run(Boot(file, Some(0), []), events, limit).published == Texts(lines)
  {
    hide Run, Emit, RawLines, CleanLines, Tail, LineStart, WithinLimit, WrittenFile;
    RunOnce(file, events, limit);
    ExactlyOnce(file, events, limit);
    WrittenIsClean(lines);
    var w := Run(Boot(file, Some(0), []), events, limit);
    OnceAtEnd(w, limit);
    assert w.file[..|w.file|] == w.file;
  }

  /** When everything was read and the file ends in a newline, everything is committed. */
  lemma OnceAtEnd(w: World, limit: nat)
    requires Once(w, limit) && w.cursor.readOffset == |w.file| && Tail(w.file) == []
    ensures w.cursor.committedOffset == |w.file|
  {
    hide Emit, Tail;
    EndsInNewline(w.file);
    LastIsInside(w.file, w.cursor.committedOffset);
  }

  lemma LastIsInside(s: Bytes, from: nat)
    requires from <= |s|
    ensures from < |s| ==> s[|s| - 1] in s[from..]
  {
    if from < |s| {
      assert s[from..][|s| - 1 - from] == s[|s| - 1];
    }
  }

  lemma EndsInNewline(s: Bytes)
    requires Tail(s) == []
    ensures s != [] ==> s[|s| - 1] == LF
  {
  }

  // ----- Truncation -----

  /** A file that became shorter than what was read of it is read from its first byte again. */
  lemma TruncatedIsReadAnew(w: World, got: nat, reject: Option<nat>, limit: nat)
    requires 0 < |w.file| < w.cursor.readOffset && got > 0
    ensures var after, anew := DrainStep(w, got, reject, limit),
                               DrainStep(Boot(w.file, Some(0), w.published), got, reject, limit);
      && after.cursor == anew.cursor && after.published == anew.published
      && after.cursor.readOffset <= |w.file|
      && (after.cursor.readOffset > 0 ==> after.offset == Some(after.cursor.committedOffset) && after.dirty)
  {
    hide Emit, Tail;
  }
}
