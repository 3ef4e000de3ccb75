/**
 The offset cursor that follows one log stream (internal/api/loop_logs_stream.go): its
 reads of a growing file, its snapshot, its hand-over from durable inline text to the
 file, and the drain loop.  Texts are bytes.
 */
module LogCursor {
  import opened Wrappers
  import opened Runes

  const SNAPSHOT_BYTES: nat := 200 * 1024
  const CHUNK_BYTES: nat := 64 * 1024

  type Path = string

  datatype File = File(identity: nat, content: Bytes)

  type Disk = map<Path, File>

  datatype IoFault = NoFault | OpenFails | StatFails | ReadFails

  datatype Cursor = Cursor(path: Path, offset: nat, info: Option<nat>, lastInline: Bytes, pendingInline: Bytes,
      snapshot: Bytes)

  // ---------------------------------------------------------------------------
  // The pure pieces
  // ---------------------------------------------------------------------------

  function SnapshotContent(c: Cursor): Bytes {
    if c.snapshot != [] || (c.path != "" && c.offset == 0) then c.snapshot else c.lastInline
  }

  function TailBytes(content: Bytes, max: nat): Bytes {
    if |content| <= max then content
    else
      var tail := content[|content| - max..];
      tail[LeadingConts(tail)..]
  }

  /** logContentAfterKnown. */
  function AfterKnown(content: Bytes, known: Bytes): Bytes {
    if known == [] then content
    else if content == known then []
    else if known <= content then content[|known|..]
    else content
  }

  /** appendedLogChunk for one execution. */
  function Appended(hasExecution: bool, previous: Bytes, current: Bytes): Bytes {
    if !hasExecution then []
    else if current == previous then []
    else if previous <= current then current[|previous|..]
    else current
  }

  datatype ReadOutcome = ReadOutcome(cursor: Cursor, chunk: Bytes, attempted: bool, failed: bool)

  ghost function ReadNextOf(c: Cursor, disk: Disk, max: nat, fault: IoFault): ReadOutcome {
    if c.path == "" then ReadOutcome(c, [], false, false)
    else if c.path !in disk then
      ReadOutcome(c.(path := "", offset := 0, info := None, pendingInline := []), [], true, false)
    else if fault.OpenFails? then ReadOutcome(c, [], true, true)
    else
      var c1 := if c.pendingInline != [] then c.(lastInline := c.pendingInline, pendingInline := []) else c;
      if fault.StatFails? then ReadOutcome(c1, [], true, true)
      else ReadOpenedOf(c1, disk[c.path], max, fault)
  }

  /** The read once the file's size and identity are known. */
  ghost function ReadOpenedOf(c: Cursor, f: File, max: nat, fault: IoFault): ReadOutcome {
    var c1 := c.(offset := if Rewinds(c, f) then 0 else c.offset, info := Some(f.identity));
    if c1.offset == |f.content| then ReadOutcome(c1, [], true, false)
    else if fault.ReadFails? then ReadOutcome(c1, [], true, true)
    else
      var chunk := NextChunk(f.content[c1.offset..], max);
      ReadOutcome(c1.(offset := c1.offset + |chunk|), chunk, true, false)
  }

  /** The most that one read takes of what is unread: at most `max` bytes, down to the last whole rune. */
  ghost function NextChunk(unread: Bytes, max: nat): (chunk: Bytes)
    ensures chunk <= unread && |chunk| <= max
  {
    WholePart(unread[..Min(|unread|, max)])
  }

  ghost function WholePart(raw: Bytes): Bytes {
    raw[..WholeRunes(raw)]
  }

  method CutWhole(raw: Bytes) returns (kept: Bytes)
    ensures kept == WholePart(raw)
  {
    var cut := Utf8ChunkBoundary(raw, |raw|);
    assert raw[..|raw|] == raw;
    kept := if cut < |raw| then raw[..cut] else raw;
  }

  function Min(a: nat, b: nat): nat {
    if a <= b then a else b
  }

  /** The file was replaced, or is shorter than what was read. */
  predicate Rewinds(c: Cursor, f: File) {
    (c.info.Some? && c.info.value != f.identity) || |f.content| < c.offset
  }

  /** newLoopLogsFileCursor; `valid` says that the path is set and inside the log directory. */
  ghost function OpenOf(path: Path, valid: bool, inline: Bytes, disk: Disk, max: nat): Cursor {
    if !valid || path !in disk then Cursor("", 0, None, inline, [], [])
    else
      var content := disk[path].content;
      var raw := SnapshotRaw(content, max);
      var kept := WholePart(raw);
      Cursor(path, |content| - (|raw| - |kept|), Some(disk[path].identity), inline, [], kept)
  }

  /** readLoopLogsSnapshot: the tail of the file, without the continuation bytes of a rune cut in half. */
  function SnapshotRaw(content: Bytes, max: nat): (raw: Bytes)
    ensures |raw| <= |content| && raw == content[|content| - |raw|..]
  {
    if |content| <= max then content
    else
      var tail := content[|content| - max..];
      tail[LeadingConts(tail)..]
  }

  method TakeChunk(content: Bytes, offset: nat, max: nat) returns (chunk: Bytes)
    requires offset <= |content|
    ensures chunk == NextChunk(content[offset..], max)
  {
    var remaining := |content| - offset;
    if remaining > max {
      remaining := max;
    }
    chunk := CutWhole(content[offset..offset + remaining]);
    assert content[offset..offset + remaining] == content[offset..][..remaining];
  }

  method ReadSnapshot(content: Bytes, max: nat) returns (raw: Bytes)
    ensures raw == SnapshotRaw(content, max)
  {
    var start := |content| - max;
    if start < 0 {
      start := 0;
    }
    raw := content[start..];
    if start > 0 {
      raw := TrimIncompletePrefix(raw);
    }
  }

  /** How much reading is left on a disk that does not change. */
  function Left(c: Cursor, disk: Disk): nat {
    if c.path == "" || c.path !in disk then 0
    else if Rewinds(c, disk[c.path]) then |disk[c.path].content| + 1
    else |disk[c.path].content| - c.offset
  }

  lemma ReadMakesProgress(c: Cursor, disk: Disk, max: nat)
    requires ReadNextOf(c, disk, max, NoFault).chunk != []
    ensures Left(ReadNextOf(c, disk, max, NoFault).cursor, disk) < Left(c, disk)
  {
  }

  /**
   One read, by what it finds.  Without a path it does nothing; a file that is gone sends the
   cursor back to inline text; a replaced or shorter file is read from its start, any other
   from where the cursor stood; and a fault gives no text and moves nothing forward.
   */
  lemma ReadNextSays(c: Cursor, disk: Disk, max: nat, fault: IoFault)
    ensures var r := ReadNextOf(c, disk, max, fault);
            if c.path == "" then r.cursor == c && r.chunk == [] && !r.attempted && !r.failed
            else if c.path !in disk then
              && r.cursor == Cursor("", 0, None, c.lastInline, [], c.snapshot)
              && r.chunk == [] && r.attempted && !r.failed
            else
              var File(identity, content) := disk[c.path];
              var from := if (c.info.Some? && c.info.value != identity) || |content| < c.offset then 0 else c.offset;
              && r.cursor.path == c.path && r.cursor.snapshot == c.snapshot && r.attempted
              && (fault.NoFault? ==>
                    && !r.failed && r.cursor.info == Some(identity)
                    && r.chunk <= content[from..] && |r.chunk| <= max && r.cursor.offset == from + |r.chunk|
                    && r.cursor.lastInline == (if c.pendingInline != [] then c.pendingInline else c.lastInline)
                    && r.cursor.pendingInline == [])
              && (r.failed ==> !fault.NoFault? && r.chunk == [] && r.cursor.offset in {c.offset, from})
              && (fault.OpenFails? || fault.StatFails? ==> r.failed && r.cursor.offset == c.offset)
  {
  }

  /** The drain: the i-th read sees `disks[i]`, and every later read the last of them. */
  ghost function DrainOf(c: Cursor, disks: seq<Disk>, max: nat): (Cursor, seq<Bytes>)
    requires disks != []
    decreases |disks|, Left(c, disks[0])
  {
    var r := ReadNextOf(c, disks[0], max, NoFault);
    if r.chunk == [] then (r.cursor, [])
    else
      ReadMakesProgress(c, disks[0], max);
      var rest := DrainOf(r.cursor, if |disks| > 1 then disks[1..] else disks, max);
      (rest.0, [r.chunk] + rest.1)
  }

  /** updateLoopLogsSingleCursor on a disk that stays as it is meanwhile: new cursor and the text it emits. */
  ghost function UpdateOf(c: Cursor, disk: Disk, path: Path, valid: bool, inline: Bytes,
      hasExecution: bool): (Cursor, Bytes) {
    if c.path != "" && c.path != path then
      var drained := Concat(DrainOf(c, [disk], CHUNK_BYTES).1);
      if valid then
        var next := OpenOf(path, valid, inline, disk, SNAPSHOT_BYTES);
        (next, drained + AfterKnown(SnapshotContent(next), c.lastInline))
      else
        (Cursor("", 0, None, inline, [], []), drained + Appended(hasExecution, c.lastInline, inline))
    else if c.path == "" && valid then
      var next := OpenOf(path, valid, inline, disk, SNAPSHOT_BYTES);
      (next, AfterKnown(SnapshotContent(next), c.lastInline))
    else if c.path == "" then
      (c.(lastInline := inline), Appended(hasExecution, c.lastInline, inline))
    else
      (c.(pendingInline := inline), [])
  }

  // ---------------------------------------------------------------------------
  // The cursor object
  // ---------------------------------------------------------------------------

  class FileCursor {
    var path: Path
    var offset: nat
    var info: Option<nat>
    var lastInline: Bytes
    var pendingInline: Bytes
    var snapshot: Bytes

    ghost function State(): Cursor
      reads this
    {
      Cursor(path, offset, info, lastInline, pendingInline, snapshot)
    }

    /** newLoopLogsFileCursor, also used to replace a cursor in place. */
    method Open(path: Path, valid: bool, inline: Bytes, disk: Disk, max: nat)
      modifies this
      ensures State() == OpenOf(path, valid, inline, disk, max)
    {
      this.path, offset, info := "", 0, None;
      lastInline, pendingInline, snapshot := inline, [], [];
      if !valid || path !in disk {
        return;
      }
      var content := disk[path].content;
      var raw := ReadSnapshot(content, max);
      var kept := CutWhole(raw);
      this.path, offset, info, snapshot := path, |content| - (|raw| - |kept|), Some(disk[path].identity), kept;
    }

    method ReadNext(disk: Disk, max: nat, fault: IoFault) returns (chunk: Bytes, attempted: bool, failed: bool)
      modifies this
      ensures ReadOutcome(State(), chunk, attempted, failed) == ReadNextOf(old(State()), disk, max, fault)
    {
      if path == "" {
        return [], false, false;
      }
      if path !in disk {
        path, offset, info, pendingInline := "", 0, None, [];
        return [], true, false;
      }
      if fault == OpenFails {
        return [], true, true;
      }
      if pendingInline != [] {
        lastInline, pendingInline := pendingInline, [];
      }
      if fault == StatFails {
        return [], true, true;
      }
      chunk, attempted, failed := ReadOpened(disk[path], max, fault);
    }

    method ReadOpened(file: File, max: nat, fault: IoFault) returns (chunk: Bytes, attempted: bool, failed: bool)
      modifies this`offset, this`info
      ensures ReadOutcome(State(), chunk, attempted, failed) == ReadOpenedOf(old(State()), file, max, fault)
    {
      if info != None && info != Some(file.identity) {
        offset := 0;
      }
      info := Some(file.identity);
      if |file.content| < offset {
        offset := 0;
      }
      if |file.content| == offset {
        return [], true, false;
      }
      if fault == ReadFails {
        return [], true, true;
      }
      chunk := TakeChunk(file.content, offset, max);
      offset := offset + |chunk|;
      return chunk, true, false;
    }

    /** emitLoopLogsSingleChunks with drain set: read until a read gives nothing. */
    method Drain(disks: seq<Disk>, max: nat) returns (chunks: seq<Bytes>)
      requires disks != []
      modifies this
      ensures (State(), chunks) == DrainOf(old(State()), disks, max)
    {
      chunks := [];
      var future := disks;
      assert forall s: seq<Bytes> :: chunks + s == s;
      while true
        invariant future != []
        invariant var rest := DrainOf(State(), future, max);
                  DrainOf(old(State()), disks, max) == (rest.0, chunks + rest.1)
        decreases |future|, Left(State(), future[0])
      {
        ghost var before := State();
        var chunk, _, _ := ReadNext(future[0], max, NoFault);
        if chunk == [] {
          assert chunks + [] == chunks;
          return;
        }
        ReadMakesProgress(before, future[0], max);
        ghost var rest := DrainOf(State(), if |future| > 1 then future[1..] else future, max);
        assert chunks + ([chunk] + rest.1) == chunks + [chunk] + rest.1;
        chunks := chunks + [chunk];
        if |future| > 1 {
          future := future[1..];
        }
      }
    }

    method UpdateSingle(disk: Disk, newPath: Path, valid: bool, inline: Bytes,
        hasExecution: bool) returns (emitted: Bytes)
      modifies this
      ensures (State(), emitted) == UpdateOf(old(State()), disk, newPath, valid, inline, hasExecution)
    {
      if path != "" && path != newPath {
        var known := lastInline;
        var chunks := Drain([disk], CHUNK_BYTES);
        emitted := Concat(chunks);
        if valid {
          Open(newPath, valid, inline, disk, SNAPSHOT_BYTES);
          return emitted + AfterKnown(SnapshotContent(Cursor(path, offset, info, lastInline, pendingInline, snapshot)), known);
        }
        path, offset, info, pendingInline, snapshot, lastInline := "", 0, None, [], [], inline;
        return emitted + Appended(hasExecution, known, inline);
      }
      if path == "" && valid {
        var known := lastInline;
        Open(newPath, valid, inline, disk, SNAPSHOT_BYTES);
        return AfterKnown(SnapshotContent(Cursor(path, offset, info, lastInline, pendingInline, snapshot)), known);
      }
      if path == "" {
        emitted := Appended(hasExecution, lastInline, inline);
        lastInline := inline;
        return;
      }
      pendingInline := inline;
      emitted := [];
    }
  }
}
