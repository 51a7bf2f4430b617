// The incremental reader of one process log file (src/log/process-log-tail.ts): chunked reads, a
// bounded pending buffer, discarding of oversized lines, commit after publish, persisted offsets.
module ProcessLogTail {
  import opened Bytes
  import opened Wrappers
  import opened LineSplit

  const READ_CHUNK_BYTES: nat := 256 * 1024
  const INITIAL_BACKFILL_BYTES: nat := 1024 * 1024

  datatype CursorFields = At(readOffset: nat, committedOffset: nat, pending: Bytes, discard: bool)

  type Cursor = c: CursorFields | |c.pending| <= c.readOffset witness At(0, 0, [], false)

  /** The cursor with everything around it. `offset` is the cursor's entry in the offsets table,
      `saved` the one in the state file; `published` is what the sink accepted. `cuts` is history:
      the read offsets committed since the process started. */
  datatype World = World(
    file: Bytes,
    cursor: Cursor,
    offset: Option<nat>,
    dirty: bool,
    saved: Option<nat>,
    published: seq<Bytes>,
    cuts: set<nat>)

  /** `Drain(got, reject)` reads at most `got` bytes; `reject` is the ordinal of the publish call
      that fails, if one does. */
  datatype Event =
    | Append(bytes: Bytes)
    | Drain(got: nat, reject: Option<nat>)
    | Persist(ok: bool)
    | Restart

  function Min(a: nat, b: nat): nat { if a < b then a else b }

  function InitialCursor(saved: Option<nat>, size: nat): Cursor {
    var offset := match saved
      case None => if size < INITIAL_BACKFILL_BYTES then 0 else size - INITIAL_BACKFILL_BYTES
      case Some(at) => Min(at, size);
    At(offset, offset, [], saved.None? && offset > 0)
  }

  function AfterTruncation(c: Cursor, size: nat): Cursor {
    if size < c.readOffset then At(0, 0, [], false) else c
  }

  /** The lines one chunk completes, in publication order. */
  function ChunkLines(c: Cursor, chunk: Bytes, limit: nat): seq<Bytes> {
    var combined := c.pending + chunk;
    Emit(if c.discard then AfterFirstLf(combined) else combined, 0, {}, limit)
  }

  function Committed(c: Cursor, chunk: Bytes, limit: nat): Cursor {
    var combined, next := c.pending + chunk, c.readOffset + |chunk|;
    var rest := Tail(combined);
    TailFacts(combined);
    if (c.discard && LF !in combined) || |rest| > limit
    then At(next, next, [], true)
    else At(next, next - |rest|, rest, false)
  }

  /** A chunk is committed only after every line in it was published. */
  function ChunkStep(w: World, chunk: Bytes, reject: Option<nat>, limit: nat): World {
    var lines := ChunkLines(w.cursor, chunk, limit);
    if reject.Some? && reject.value < |lines|
    then w.(published := w.published + lines[..reject.value])
    else
      var c := Committed(w.cursor, chunk, limit);
      w.(cursor := c, offset := Some(c.committedOffset), dirty := true,
         published := w.published + lines, cuts := w.cuts + {c.readOffset})
  }

  function DrainStep(w: World, got: nat, reject: Option<nat>, limit: nat): World {
    var c := AfterTruncation(w.cursor, |w.file|);
    var n := Min(got, Min(READ_CHUNK_BYTES, |w.file| - c.readOffset));
    var w := w.(cursor := c);
    if n == 0 then w else ChunkStep(w, w.file[c.readOffset..c.readOffset + n], reject, limit)
  }

  function Boot(file: Bytes, saved: Option<nat>, published: seq<Bytes>): World {
    World(file, InitialCursor(saved, |file|), saved, false, saved, published, {})
  }

  function Step(w: World, e: Event, limit: nat): World {
    match e
    case Append(bytes) => w.(file := w.file + bytes)
    case Drain(got, reject) => DrainStep(w, got, reject, limit)
    case Persist(ok) => if w.dirty && ok then w.(saved := w.offset, dirty := false) else w
    case Restart => Boot(w.file, w.saved, w.published)
  }

  function Run(w: World, events: seq<Event>, limit: nat): World {
    if events == [] then w
    else Step(Run(w, events[..|events| - 1], limit), events[|events| - 1], limit)
  }

  // ----- The implementation, one drain at a time -----

  class LogTail {
    const limit: nat
    var file: Bytes
    var cursor: Cursor
    var offset: Option<nat>
    var offsetsDirty: bool
    var saved: Option<nat>
    var published: seq<Bytes>
    ghost var cuts: set<nat>

    ghost function View(): World
      reads this
    {
      World(file, cursor, offset, offsetsDirty, saved, published, cuts)
    }

    /** A cursor has read nothing: it starts inside the file, at the saved offset or at most the backfill
        before the end, and skips a partial first line exactly when the backfill was cut short. */
    constructor (limit: nat, file: Bytes, saved: Option<nat>)
      ensures this.limit == limit && View() == Boot(file, saved, [])
      ensures cursor.readOffset == cursor.committedOffset <= |file| && cursor.pending == [] && published == []
      ensures saved.Some? && saved.value <= |file| ==> cursor.readOffset == saved.value && !cursor.discard
      ensures saved.None? ==> cursor.readOffset == if |file| <= 1048576 then 0 else |file| - 1048576
      ensures saved.None? ==> (cursor.discard <==> |file| > 1048576)
      ensures saved.None? ==> (cursor.discard <==> cursor.readOffset > 0)
    {
      this.limit, this.file, this.saved := limit, file, saved;
      offset, offsetsDirty, published, cuts := saved, false, [], {};
      var start := Min(if saved.Some? then saved.value else |file|, |file|);
      if saved.None? {
        start := if |file| < INITIAL_BACKFILL_BYTES then 0 else |file| - INITIAL_BACKFILL_BYTES;
      }
      cursor := At(start, start, [], saved.None? && start > 0);
    }

    /** One poll of the file. `got` bounds what the read returns. */
    method Drain(got: nat) returns (rejected: Option<nat>)
      modifies this`cursor, this`published, this`offset, this`offsetsDirty, this`cuts
      ensures View() == DrainStep(old(View()), got, rejected, limit)
      ensures rejected.None? && old(cursor).readOffset <= |file| ==>
        cursor.readOffset == old(cursor).readOffset + Min(got, Min(262144, |file| - old(cursor).readOffset))
    {
      hide ChunkStep, ChunkLines, Committed, Emit, Tail;
      rejected := None;
      var size := |file|;
      if size < cursor.readOffset {
        cursor := At(0, 0, [], false);
      }
      if size == cursor.readOffset {
        return;
      }
      var length := Min(READ_CHUNK_BYTES, size - cursor.readOffset);
      var bytesRead := Min(got, length);
      if bytesRead == 0 {
        return;
      }
      rejected := Consume(file[cursor.readOffset..cursor.readOffset + bytesRead]);
    }

    /** A chunk whose lines were all published is committed: the table holds the committed offset and is
        to be written. A rejected one leaves cursor and table as they were. */
    method Consume(chunk: Bytes) returns (rejected: Option<nat>)
      modifies this`cursor, this`published, this`offset, this`offsetsDirty, this`cuts
      ensures View() == ChunkStep(old(View()), chunk, rejected, limit)
      ensures rejected.None? ==> offset == Some(cursor.committedOffset) && offsetsDirty
      ensures rejected.None? ==> cursor.readOffset == old(cursor).readOffset + |chunk|
      ensures rejected.Some? ==> cursor == old(cursor) && offset == old(offset) && offsetsDirty == old(offsetsDirty)
    {
      hide Emit, Tail, FirstLf;
      rejected := None;
      var nextReadOffset := cursor.readOffset + |chunk|;
      var combined := cursor.pending + chunk;
      TailFacts(combined);
      var lineStart := 0;
      if cursor.discard {
        if LF !in combined {
          NothingScanned(limit);
          cursor := At(nextReadOffset, nextReadOffset, [], true);
          offset, offsetsDirty, cuts := Some(nextReadOffset), true, cuts + {nextReadOffset};
          return;
        }
        lineStart := FirstLf(combined) + 1;
      }
      assert combined[lineStart..] == if cursor.discard then AfterFirstLf(combined) else combined;
      RestOfChunk(combined, lineStart);
      lineStart, rejected := PublishLines(combined, lineStart);
      if rejected.Some? {
        return;
      }
      var pending := combined[lineStart..];
      var pendingIsOversized := |pending| > limit;
      if pendingIsOversized {
        pending := [];
      }
      cursor := At(nextReadOffset, nextReadOffset - |pending|, pending, pendingIsOversized);
      offset, offsetsDirty, cuts := Some(cursor.committedOffset), true, cuts + {nextReadOffset};
    }

    /** A successful write makes the saved offset that of the table; nothing is to be written then. */
    method PersistOffsets(ok: bool)
      modifies this`saved, this`offsetsDirty
      ensures View() == Step(old(View()), Persist(ok), limit)
      ensures old(offsetsDirty) && ok ==> saved == offset && !offsetsDirty
      ensures old(offsetsDirty) && !ok ==> saved == old(saved) && offsetsDirty
      ensures !old(offsetsDirty) ==> saved == old(saved) && !offsetsDirty
    {
      if !offsetsDirty {
        return;
      }
      offsetsDirty := false;
      if ok {
        saved := offset;
      } else {
        offsetsDirty := true;
      }
    }

    /** The sink either takes the line or rejects it. */
    method Publish(line: Bytes) returns (ok: bool)
      modifies this`published
      ensures published == if ok then old(published) + [line] else old(published)
    {
      ok := *;
      if ok {
        published := published + [line];
      }
    }

    /** Publishes the complete lines of `combined` from `start` on; stops at the first rejection. */
    method PublishLines(combined: Bytes, start: nat) returns (lineStart: nat, rejected: Option<nat>)
      requires start <= |combined|
      modifies this`published
      ensures rejected.None? ==>
        && published == old(published) + Emit(combined[start..], 0, {}, limit)
        && start <= lineStart <= |combined| && combined[lineStart..] == Tail(combined[start..])
      ensures rejected.Some? ==>
        && rejected.value < |Emit(combined[start..], 0, {}, limit)|
        && published == old(published) + Emit(combined[start..], 0, {}, limit)[..rejected.value]
    {
      hide Emit, Tail;
      lineStart, rejected := start, None;
      var index, count := start, 0;
      ghost var emitted := [];
      assert combined[start..index] == [];
      NothingScanned(limit);
      while index < |combined|
        invariant start <= lineStart <= index <= |combined|
        invariant Tail(combined[start..index]) == combined[lineStart..index]
        invariant emitted == Emit(combined[start..index], 0, {}, limit)
        invariant count == |emitted| && published == old(published) + emitted
      {
        ScanStep(combined, start, lineStart, index, limit);
        ScannedPrefix(combined, start, index + 1, limit);
        if combined[index] == LF {
          var withoutCr := StripCr(combined[lineStart..index]);
          if |withoutCr| > limit {
          } else if |withoutCr| > 0 {
            var ok := Publish(withoutCr);
            if !ok {
              rejected := Some(count);
              return;
            }
            emitted, count := emitted + [withoutCr], count + 1;
          }
          lineStart := index + 1;
        }
        index := index + 1;
      }
      assert combined[start..index] == combined[start..];
    }
  }

  /** Bytes up to a newline do not show in the tail. */
  lemma RestOfChunk(combined: Bytes, first: nat)
    requires first == 0 || (LF in combined && first == FirstLf(combined) + 1)
    ensures first <= |combined| && Tail(combined[first..]) == Tail(combined)
  {
    hide Emit, Tail, FirstLf, InLimit;
    if first == 0 {
      assert combined[0..] == combined;
    } else {
      assert combined == (combined[..first - 1] + [LF]) + combined[first..];
      EmitSnoc(combined[..first - 1], LF, 0, {}, 0);
      TailAtLineStart(combined[..first - 1] + [LF], combined[first..]);
    }
  }

  lemma NothingScanned(limit: nat)
    ensures Tail([]) == [] && Emit([], 0, {}, limit) == []
  {
  }

  /** One step of the scan for newlines. */
  lemma ScanStep(combined: Bytes, start: nat, lineStart: nat, index: nat, limit: nat)
    requires start <= lineStart <= index < |combined|
    requires Tail(combined[start..index]) == combined[lineStart..index]
    ensures Tail(combined[start..index + 1])
         == if combined[index] == LF then [] else combined[lineStart..index + 1]
    ensures Emit(combined[start..index + 1], 0, {}, limit)
         == Emit(combined[start..index], 0, {}, limit)
            + if combined[index] == LF then Kept(combined[lineStart..index], false, limit) else []
  {
    hide Emit, Tail;
    EmitSnoc(combined[start..index], combined[index], 0, {}, limit);
    assert combined[start..index + 1] == combined[start..index] + [combined[index]];
    assert combined[lineStart..index + 1] == combined[lineStart..index] + [combined[index]];
  }

  lemma ScannedPrefix(combined: Bytes, start: nat, index: nat, limit: nat)
    requires start <= index <= |combined|
    ensures Emit(combined[start..index], 0, {}, limit) <= Emit(combined[start..], 0, {}, limit)
  {
    hide Emit;
    assert combined[start..] == combined[start..index] + combined[index..];
    EmitPrefix(combined[start..index], combined[index..], 0, {}, limit);
  }
}
