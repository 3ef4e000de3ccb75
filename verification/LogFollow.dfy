/**
 Runs of a log follow (internal/api/loop_logs_stream.go, streamLoopLogs in
 internal/api/handler_loop_routes.go): the stream grows, the file appears and catches up,
 state is refreshed, chunks are read and drained.  What the client got is then compared
 with the stream itself.
 */
module LogFollow {
  import opened Wrappers
  import opened Runes
  import opened LogCursor

  /** `log` is the path the execution names; `stream` is everything written so far to this output. */
  datatype Follow = Follow(log: Path, stream: Bytes, disk: Disk, cursor: Cursor, delivered: Bytes)

  datatype Event =
    | Append(more: Bytes)
    | Flush(identity: nat, size: nat)
    | Refresh(named: bool, inline: nat, hasExecution: bool)
    | Read(fault: IoFault)
    | DrainAll

  // ---------------------------------------------------------------------------
  // Steps
  // ---------------------------------------------------------------------------

  /** What a newly opened cursor shows first. */
  ghost function Start(log: Path, named: bool, stream: Bytes, disk: Disk, inline: nat): Follow
    requires inline <= |stream|
  {
    var c := OpenOf(log, named, stream[..inline], disk, SNAPSHOT_BYTES);
    Follow(log, stream, disk, c, TailBytes(SnapshotContent(c), SNAPSHOT_BYTES))
  }

  ghost predicate CanStart(log: Path, stream: Bytes, disk: Disk, inline: nat) {
    log != "" && Utf8Prefix(stream) && FileInStream(log, stream, disk) && inline <= |stream| && Utf8(stream[..inline])
  }

  predicate FileInStream(log: Path, stream: Bytes, disk: Disk) {
    log in disk ==> disk[log].content <= stream
  }

  predicate HandsOver(s: Follow, e: Event) {
    s.cursor.path == "" && e.Refresh? && e.named && s.log in s.disk
  }

  /**
   The log stays UTF-8, the file is a prefix of it that never shrinks or changes identity,
   durable inline text is a rune-aligned prefix that never shrinks, and an execution that
   is not known yet has no new output.
   */
  ghost predicate Enabled(s: Follow, e: Event) {
    match e
    case Append(more) => Utf8Prefix(s.stream + more)
    case Flush(identity, size) =>
      && size <= |s.stream|
      && (s.log in s.disk ==> s.disk[s.log].identity == identity && |s.disk[s.log].content| <= size)
    case Refresh(named, inline, hasExecution) =>
      && inline <= |s.stream| && Utf8(s.stream[..inline])
      && (s.cursor.path != "" ==> named)
      && (s.cursor.path == "" ==> |s.cursor.lastInline| <= inline && (hasExecution || |s.cursor.lastInline| == inline))
    case Read(_) => true
    case DrainAll => true
  }

  ghost function Apply(s: Follow, e: Event): Follow
    requires Enabled(s, e)
  {
    match e
    case Append(more) => s.(stream := s.stream + more)
    case Flush(identity, size) => s.(disk := s.disk[s.log := File(identity, s.stream[..size])])
    case Refresh(named, inline, hasExecution) =>
      var u := UpdateOf(s.cursor, s.disk, if named then s.log else "", named, s.stream[..inline], hasExecution);
      s.(cursor := u.0, delivered := s.delivered + u.1)
    case Read(fault) =>
      var r := ReadNextOf(s.cursor, s.disk, CHUNK_BYTES, fault);
      s.(cursor := r.cursor, delivered := s.delivered + r.chunk)
    case DrainAll =>
      var d := DrainOf(s.cursor, [s.disk], CHUNK_BYTES);
      s.(cursor := d.0, delivered := s.delivered + Concat(d.1))
  }

  ghost predicate Feasible(s: Follow, run: seq<Event>)
    decreases |run|
  {
    run == [] || (Enabled(s, run[0]) && Feasible(Apply(s, run[0]), run[1..]))
  }

  ghost function Exec(s: Follow, run: seq<Event>): Follow
    requires Feasible(s, run)
    decreases |run|
  {
    if run == [] then s else Exec(Apply(s, run[0]), run[1..])
  }

  // ---------------------------------------------------------------------------
  // The invariant
  // ---------------------------------------------------------------------------

  /** How far the client has been served. */
  function Position(c: Cursor): nat {
    if c.path != "" then c.offset else |c.lastInline|
  }

  ghost predicate Aligned(s: Follow, k: nat) {
    k <= |s.stream| && Utf8(s.stream[..k])
  }

  ghost predicate CursorOk(s: Follow) {
    var c := s.cursor;
    if c.path == "" then
      c.info == None && c.snapshot == [] && c.offset == 0 && c.lastInline <= s.stream
    else
      && c.path == s.log && s.log in s.disk && c.info == Some(s.disk[s.log].identity)
      && c.offset <= |s.disk[s.log].content|
  }

  ghost predicate Inv(s: Follow, base: nat) {
    && s.log != "" && Utf8Prefix(s.stream) && FileInStream(s.log, s.stream, s.disk) && CursorOk(s)
    && base <= Position(s.cursor) && Aligned(s, base) && Aligned(s, Position(s.cursor))
    && s.delivered == s.stream[base..Position(s.cursor)]
  }

  // ---------------------------------------------------------------------------
  // Reading on: for any bytes, then for a UTF-8 log
  // ---------------------------------------------------------------------------

  predicate Attached(c: Cursor, disk: Disk) {
    && c.path != "" && c.path in disk && c.info == Some(disk[c.path].identity)
    && c.offset <= |disk[c.path].content|
  }

  /** A read that gives nothing leaves at most three bytes, the start of a rune. */
  lemma EmptyReadLeavesRest(unread: Bytes, max: nat)
    requires max >= 4 && NextChunk(unread, max) == []
    ensures unread == [] || (Incomplete(unread) && |unread| <= 3)
  {
    var raw := unread[..Min(|unread|, max)];
    HeldBackIsShort(raw);
    if unread != [] {
      assert raw[0..] == raw == unread;
    }
  }

  lemma ReadStaysAttached(c: Cursor, disk: Disk, max: nat, fault: IoFault)
    requires Attached(c, disk)
    ensures var r := ReadNextOf(c, disk, max, fault);
            && Attached(r.cursor, disk) && r.cursor.path == c.path && r.cursor.snapshot == c.snapshot
            && r.cursor.offset == c.offset + |r.chunk|
            && (r.chunk != [] ==> r.chunk == NextChunk(disk[c.path].content[c.offset..], max))
            && (fault.NoFault? ==> r.chunk == NextChunk(disk[c.path].content[c.offset..], max))
  {
  }

  /** Draining delivers, for any bytes at all, the file from the old offset to the new one, in bounded pieces. */
  lemma {:induction false} DrainDeliversTheFile(c: Cursor, disk: Disk, max: nat)
    requires Attached(c, disk) && max >= 4
    ensures var d := DrainOf(c, [disk], max);
            var content := disk[c.path].content;
            && Attached(d.0, disk) && d.0.path == c.path && c.offset <= d.0.offset
            && Concat(d.1) == content[c.offset..d.0.offset]
            && (forall i :: 0 <= i < |d.1| ==> 0 < |d.1[i]| <= max)
            && (d.0.offset == |content| || (Incomplete(content[d.0.offset..]) && |content| - d.0.offset <= 3))
    decreases Left(c, disk)
  {
    var content := disk[c.path].content;
    var r := ReadNextOf(c, disk, max, NoFault);
    ReadStaysAttached(c, disk, max, NoFault);
    if r.chunk == [] {
      EmptyReadLeavesRest(content[c.offset..], max);
    } else {
      ReadMakesProgress(c, disk, max);
      DrainDeliversTheFile(r.cursor, disk, max);
      var rest := DrainOf(r.cursor, [disk], max);
      assert DrainOf(c, [disk], max) == (rest.0, [r.chunk] + rest.1);
      JoinSegments(content, c.offset, r.cursor.offset, rest.0.offset, r.chunk, rest.1);
    }
  }

  lemma JoinSegments(content: Bytes, a: nat, b: nat, c: nat, chunk: Bytes, rest: seq<Bytes>)
    requires a <= b <= c <= |content| && b == a + |chunk|
    requires chunk <= content[a..] && Concat(rest) == content[b..c]
    ensures Concat([chunk] + rest) == content[a..c]
  {
    assert ([chunk] + rest)[1..] == rest;
    assert content[a..][..|chunk|] == content[a..b];
    assert content[a..b] + content[b..c] == content[a..c];
  }

  lemma ChunkOfUnread(unread: Bytes, max: nat)
    requires Utf8Prefix(unread)
    ensures Utf8(NextChunk(unread, max))
  {
    var m := Min(|unread|, max);
    PrefixOfPrefix(unread, m);
    BoundaryKeepsRunesWhole(unread[..m]);
  }

  lemma JoinSlices(content: Bytes, a: nat, b: nat)
    requires a <= b <= |content|
    ensures content[..a] + content[a..b] == content[..b]
  {
  }

  /** Whole runes after whole runes. */
  lemma WholeAfterWhole(content: Bytes, a: nat, b: nat)
    requires a <= b <= |content| && Utf8(content[..a]) && Utf8(content[a..b])
    ensures Utf8(content[..b])
  {
    JoinSlices(content, a, b);
    Utf8Concat(content[..a], content[a..b]);
  }

  lemma PrefixIsSlice(content: Bytes, offset: nat, chunk: Bytes)
    requires offset <= |content| && chunk <= content[offset..]
    ensures offset + |chunk| <= |content| && content[offset..offset + |chunk|] == chunk
  {
    assert content[offset..][..|chunk|] == content[offset..offset + |chunk|];
  }

  /** On a UTF-8 log each chunk is whole runes and the next offset is again between runes. */
  lemma ChunkIsWholeRunes(content: Bytes, offset: nat, max: nat)
    requires offset <= |content| && Utf8Prefix(content) && Utf8(content[..offset])
    ensures var chunk := NextChunk(content[offset..], max);
            && Utf8(chunk) && offset + |chunk| <= |content|
            && content[offset..offset + |chunk|] == chunk && Utf8(content[..offset + |chunk|])
  {
    hide Utf8, Utf8Prefix, Incomplete;
    var chunk := NextChunk(content[offset..], max);
    Utf8Drop(content, offset);
    ChunkOfUnread(content[offset..], max);
    PrefixIsSlice(content, offset, chunk);
    WholeAfterWhole(content, offset, offset + |chunk|);
  }

  lemma {:induction false} DrainKeepsRunesWhole(c: Cursor, disk: Disk, max: nat)
    requires Attached(c, disk) && max >= 4
    requires Utf8Prefix(disk[c.path].content) && Utf8(disk[c.path].content[..c.offset])
    ensures var d := DrainOf(c, [disk], max);
            && d.0.path == c.path && d.0.offset <= |disk[c.path].content|
            && Utf8(disk[c.path].content[..d.0.offset])
            && forall i :: 0 <= i < |d.1| ==> Utf8(d.1[i])
    decreases Left(c, disk)
  {
    hide Utf8, Utf8Prefix, Incomplete;
    var content := disk[c.path].content;
    var r := ReadNextOf(c, disk, max, NoFault);
    ReadStaysAttached(c, disk, max, NoFault);
    ChunkIsWholeRunes(content, c.offset, max);
    if r.chunk != [] {
      ReadMakesProgress(c, disk, max);
      DrainKeepsRunesWhole(r.cursor, disk, max);
      var rest := DrainOf(r.cursor, [disk], max);
      assert DrainOf(c, [disk], max) == (rest.0, [r.chunk] + rest.1);
    }
  }

  /** What is new in `now` to someone who has seen `known`. */
  function NewIn(now: Bytes, known: Bytes): Bytes {
    if known <= now then now[|known|..] else now
  }

  /**
   When another execution's log takes over, the rest of the old file is delivered first, but
   for the start of an unfinished rune; then what the new log or inline text adds.
   */
  lemma SwitchDeliversTheOldRest(c: Cursor, disk: Disk, path: Path, valid: bool, inline: Bytes, hasExecution: bool) returns (end: nat)
    requires Attached(c, disk) && c.path != path
    ensures var content := disk[c.path].content;
            && c.offset <= end <= |content| <= end + 3 && (end < |content| ==> Incomplete(content[end..]))
            && var (next, emitted) := UpdateOf(c, disk, path, valid, inline, hasExecution);
               if valid then
                 && next == OpenOf(path, true, inline, disk, SNAPSHOT_BYTES)
                 && emitted == content[c.offset..end] + NewIn(SnapshotContent(next), c.lastInline)
               else
                 && next == Cursor("", 0, None, inline, [], [])
                 && emitted == content[c.offset..end] + if hasExecution then NewIn(inline, c.lastInline) else []
  {
    hide DrainOf, OpenOf;
    DrainDeliversTheFile(c, disk, CHUNK_BYTES);
    end := DrainOf(c, [disk], CHUNK_BYTES).0.offset;
  }

  // ---------------------------------------------------------------------------
  // Opening
  // ---------------------------------------------------------------------------

  /** The trimmed tail of a UTF-8 log begins between runes. */
  lemma SnapshotStartsAtARune(content: Bytes, max: nat)
    requires Utf8Prefix(content) && max >= 8
    ensures var from := |content| - |SnapshotRaw(content, max)|;
            Utf8(content[..from]) && (if |content| <= max then from == 0 else from > 0 && |content| - from >= max - 3)
  {
    hide Utf8, Utf8Prefix, SnapshotRaw, LeadingConts;
    SnapshotLength(content, max);
    if |content| > max {
      TrimFindsBoundary(content, |content| - max);
    } else {
      assert content[..0] == [];
      EmptyIsWhole();
    }
  }

  lemma SnapshotLength(content: Bytes, max: nat)
    ensures |SnapshotRaw(content, max)| ==
            if |content| <= max then |content| else max - LeadingConts(content[|content| - max..])
  {
  }

  /** What is kept of the rest of a log ends between runes. */
  lemma RestIsCutAtARune(content: Bytes, from: nat)
    requires from <= |content| && Utf8Prefix(content) && Utf8(content[..from])
    ensures var kept := WholePart(content[from..]);
            && from + |kept| <= |content| && |content| - from <= |kept| + 3
            && kept == content[from..from + |kept|] && Utf8(content[..from + |kept|])
  {
    hide Utf8, Utf8Prefix, Incomplete;
    var kept := WholePart(content[from..]);
    Utf8Drop(content, from);
    BoundaryKeepsRunesWhole(content[from..]);
    HeldBackIsShort(content[from..]);
    PrefixIsSlice(content, from, kept);
    WholeAfterWhole(content, from, from + |kept|);
  }

  /** A snapshot of a UTF-8 log is the log from one rune boundary to the last one. */
  lemma SnapshotIsATail(content: Bytes, max: nat)
    requires Utf8Prefix(content) && max >= 8
    ensures var raw := SnapshotRaw(content, max);
            var kept := WholePart(raw);
            var from := |content| - |raw|;
            && Utf8(content[..from]) && Utf8(content[..from + |kept|]) && kept == content[from..from + |kept|]
            && |kept| <= max && (from == 0 <==> |content| <= max) && (kept == [] ==> |content| <= max)
  {
    hide Utf8, Utf8Prefix, Incomplete;
    var raw := SnapshotRaw(content, max);
    var from := |content| - |raw|;
    assert raw == content[from..];
    SnapshotStartsAtARune(content, max);
    RestIsCutAtARune(content, from);
    WholePartFits(raw);
  }

  lemma WholePartFits(raw: Bytes)
    ensures |WholePart(raw)| <= |raw|
  {
  }

  lemma FileIsPrefix(s: Follow)
    requires Utf8Prefix(s.stream) && FileInStream(s.log, s.stream, s.disk) && s.log in s.disk
    ensures Utf8Prefix(s.disk[s.log].content)
  {
    hide Utf8, Utf8Prefix, Incomplete;
    var content := s.disk[s.log].content;
    PrefixOfPrefix(s.stream, |content|);
    assert content == s.stream[..|content|];
  }

  /** A stretch of the file is the same stretch of the stream. */
  lemma SameStretch(content: Bytes, stream: Bytes, a: nat, b: nat)
    requires content <= stream && a <= b <= |content|
    ensures content[a..b] == stream[a..b] && content[..a] == stream[..a] && content[..b] == stream[..b]
  {
  }

  /** The first event: the client gets one segment of the stream that ends where the cursor stands. */
  lemma StartInv(log: Path, named: bool, stream: Bytes, disk: Disk, inline: nat) returns (base: nat)
    requires CanStart(log, stream, disk, inline)
    ensures Inv(Start(log, named, stream, disk, inline), base)
  {
    var s := Start(log, named, stream, disk, inline);
    if s.cursor.path == "" {
      base := StartFromInline(stream, inline);
    } else {
      base := StartFromFile(s);
    }
  }

  lemma OpenedFileShows(path: Path, inline: Bytes, disk: Disk)
    requires path in disk && path != "" && Utf8Prefix(disk[path].content)
    ensures var content, c := disk[path].content, OpenOf(path, true, inline, disk, SNAPSHOT_BYTES);
            && c.path == path && SnapshotContent(c) == c.snapshot && |c.snapshot| <= SNAPSHOT_BYTES
            && |content| - 3 <= c.offset <= |content| && |c.snapshot| >= Min(|content|, SNAPSHOT_BYTES - 3) - 3
  {
    hide Utf8, Utf8Prefix, Incomplete, WholePart, SnapshotRaw;
    var content := disk[path].content;
    var raw := SnapshotRaw(content, SNAPSHOT_BYTES);
    SnapshotStartsAtARune(content, SNAPSHOT_BYTES);
    RestIsCutAtARune(content, |content| - |raw|);
    WholePartFits(raw);
    SnapshotLength(content, SNAPSHOT_BYTES);
    assert raw == content[|content| - |raw|..];
  }

  /** A tail is everything that fits, or the bound less the rest of a rune cut in half. */
  lemma TailLength(content: Bytes, max: nat)
    requires Utf8Prefix(content) && max >= 8
    ensures |TailBytes(content, max)| <= max && |TailBytes(content, max)| >= Min(|content|, max - 3)
    ensures |content| <= max ==> TailBytes(content, max) == content
  {
    hide Utf8, Utf8Prefix;
    SnapshotStartsAtARune(content, max);
    SnapshotLength(content, max);
    assert TailBytes(content, max) == SnapshotRaw(content, max);
  }

  lemma ShortTail(content: Bytes, max: nat)
    ensures |content| <= max ==> TailBytes(content, max) == content
  {
  }

  lemma NoFileShowsInline(path: Path, named: bool, inline: Bytes, disk: Disk)
    requires !(named && path in disk)
    ensures var c := OpenOf(path, named, inline, disk, SNAPSHOT_BYTES);
            c.path == "" && c.lastInline == inline && SnapshotContent(c) == inline
  {
    hide SnapshotRaw, WholePart;
  }

  /** What a new follow shows: nearly all that fits the snapshot bound, of the file when there is one, up to its last whole rune. */
  lemma StartShowsTheTail(log: Path, named: bool, stream: Bytes, disk: Disk, inline: nat)
    requires CanStart(log, stream, disk, inline)
    ensures var s := Start(log, named, stream, disk, inline);
            && (s.cursor.path != "" <==> named && log in disk)
            && |s.delivered| <= SNAPSHOT_BYTES
            && if named && log in disk then
                 && |disk[log].content| - 3 <= Position(s.cursor) <= |disk[log].content|
                 && |s.delivered| >= Min(|disk[log].content|, SNAPSHOT_BYTES - 3) - 3
               else Position(s.cursor) == inline && |s.delivered| >= Min(inline, SNAPSHOT_BYTES - 3)
  {
    hide Utf8, Utf8Prefix, TailBytes, OpenOf, SnapshotContent;
    if named && log in disk {
      var content := disk[log].content;
      PrefixOfPrefix(stream, |content|);
      assert content == stream[..|content|];
      OpenedFileShows(log, stream[..inline], disk);
      ShortTail(OpenOf(log, true, stream[..inline], disk, SNAPSHOT_BYTES).snapshot, SNAPSHOT_BYTES);
    } else {
      PrefixOfPrefix(stream, inline);
      NoFileShowsInline(log, named, stream[..inline], disk);
      TailLength(stream[..inline], SNAPSHOT_BYTES);
    }
  }

  lemma StartFromInline(stream: Bytes, inline: nat) returns (base: nat)
    requires inline <= |stream| && Utf8Prefix(stream) && Utf8(stream[..inline])
    ensures base <= inline && Utf8(stream[..base]) && TailBytes(stream[..inline], SNAPSHOT_BYTES) == stream[base..inline]
  {
    var shown := stream[..inline];
    PrefixOfPrefix(stream, inline);
    SnapshotStartsAtARune(shown, SNAPSHOT_BYTES);
    base := inline - |SnapshotRaw(shown, SNAPSHOT_BYTES)|;
    assert shown[..base] == stream[..base] && shown[base..] == stream[base..inline];
  }

  lemma StartFromFile(s: Follow) returns (base: nat)
    requires s.log != "" && Utf8Prefix(s.stream) && FileInStream(s.log, s.stream, s.disk) && s.log in s.disk
    requires exists inline :: s.cursor == OpenOf(s.log, true, inline, s.disk, SNAPSHOT_BYTES)
    requires s.delivered == TailBytes(SnapshotContent(s.cursor), SNAPSHOT_BYTES)
    ensures Inv(s, base)
  {
    hide Utf8, Utf8Prefix, Incomplete;
    HandOverSnapshotIsInStream(s);
    base := SnapshotFrom(s);
    assert SnapshotContent(s.cursor) == HandOverSnapshot(s);
  }

  // ---------------------------------------------------------------------------
  // Every step keeps it
  // ---------------------------------------------------------------------------

  lemma GrowthKeepsInv(s: Follow, base: nat, e: Event)
    requires Inv(s, base) && Enabled(s, e) && (e.Append? || e.Flush?)
    ensures Inv(Apply(s, e), base)
  {
    var t := Apply(s, e);
    var pos := Position(s.cursor);
    assert t.stream[..base] == s.stream[..base] && t.stream[..pos] == s.stream[..pos];
    assert t.stream[base..pos] == s.stream[base..pos];
    assert FileInStream(t.log, t.stream, t.disk);
  }

  /** Moving on from one aligned position to a later one. */
  lemma Extend(s: Follow, base: nat, t: Follow, next: nat)
    requires Inv(s, base) && t.log == s.log && t.stream == s.stream && t.disk == s.disk && CursorOk(t)
    requires Position(s.cursor) <= next == Position(t.cursor) && Aligned(s, next)
    requires t.delivered == s.delivered + s.stream[Position(s.cursor)..next]
    ensures Inv(t, base)
  {
    var pos := Position(s.cursor);
    assert s.stream[base..pos] + s.stream[pos..next] == s.stream[base..next];
  }

  lemma ReadKeepsInv(s: Follow, base: nat, fault: IoFault)
    requires Inv(s, base)
    ensures Inv(Apply(s, Read(fault)), base)
  {
    var t := Apply(s, Read(fault));
    if s.cursor.path != "" {
      ReadMovesOn(s, base, fault);
      Extend(s, base, t, t.cursor.offset);
    } else {
      assert s.delivered + [] == s.delivered;
    }
  }

  lemma ReadMovesOn(s: Follow, base: nat, fault: IoFault)
    requires Inv(s, base) && s.cursor.path != ""
    ensures var r := ReadNextOf(s.cursor, s.disk, CHUNK_BYTES, fault);
            var next := r.cursor.offset;
            && Attached(r.cursor, s.disk) && r.cursor.path == s.log && s.cursor.offset <= next
            && Aligned(s, next) && r.chunk == s.stream[s.cursor.offset..next] && Utf8(r.chunk)
  {
    hide Utf8, Utf8Prefix, Incomplete, ReadNextOf, NextChunk;
    FileIsPrefix(s);
    ReadStaysAttached(s.cursor, s.disk, CHUNK_BYTES, fault);
    var r := ReadNextOf(s.cursor, s.disk, CHUNK_BYTES, fault);
    ChunkMovesOn(s.disk[s.log].content, s.stream, s.cursor.offset, r.chunk, CHUNK_BYTES);
  }

  /** Nothing, or the next chunk of the file, keeps to whole runes of the stream. */
  lemma ChunkMovesOn(content: Bytes, stream: Bytes, offset: nat, chunk: Bytes, max: nat)
    requires content <= stream && offset <= |content| && Utf8Prefix(content) && Utf8(stream[..offset])
    requires chunk == [] || chunk == NextChunk(content[offset..], max)
    ensures Utf8(chunk) && offset + |chunk| <= |content|
            && stream[offset..offset + |chunk|] == chunk && Utf8(stream[..offset + |chunk|])
  {
    hide Utf8, Utf8Prefix, Incomplete, NextChunk;
    if chunk == [] {
      EmptyIsWhole();
      assert stream[offset..offset] == [];
    } else {
      ChunkOfStream(content, stream, offset, max);
    }
  }

  /** A chunk of the file, seen from the stream. */
  lemma ChunkOfStream(content: Bytes, stream: Bytes, offset: nat, max: nat)
    requires content <= stream && offset <= |content| && Utf8Prefix(content) && Utf8(stream[..offset])
    ensures var chunk := NextChunk(content[offset..], max);
            && Utf8(chunk) && offset + |chunk| <= |content|
            && stream[offset..offset + |chunk|] == chunk && Utf8(stream[..offset + |chunk|])
  {
    SameStretch(content, stream, offset, offset);
    ChunkIsWholeRunes(content, offset, max);
    SameStretch(content, stream, offset, offset + |NextChunk(content[offset..], max)|);
  }

  lemma DrainKeepsInv(s: Follow, base: nat)
    requires Inv(s, base)
    ensures Inv(Apply(s, DrainAll), base)
  {
    hide Utf8, Utf8Prefix, Incomplete;
    var t := Apply(s, DrainAll);
    if s.cursor.path != "" {
      var content := s.disk[s.log].content;
      FileIsPrefix(s);
      SameStretch(content, s.stream, s.cursor.offset, s.cursor.offset);
      DrainDeliversTheFile(s.cursor, s.disk, CHUNK_BYTES);
      DrainKeepsRunesWhole(s.cursor, s.disk, CHUNK_BYTES);
      SameStretch(content, s.stream, s.cursor.offset, t.cursor.offset);
      Extend(s, base, t, t.cursor.offset);
    } else {
      assert s.delivered + [] == s.delivered;
    }
  }

  lemma RefreshKeepsInv(s: Follow, base: nat, e: Event)
    requires Inv(s, base) && Enabled(s, e) && e.Refresh? && !HandsOver(s, e)
    ensures Inv(Apply(s, e), base)
  {
    var t := Apply(s, e);
    if s.cursor.path == "" {
      InlineEmits(s, e);
      Extend(s, base, t, e.inline);
    } else {
      assert s.delivered + [] == s.delivered;
    }
  }

  /** Without a file, a refresh emits exactly the inline text that is new. */
  lemma InlineEmits(s: Follow, e: Event)
    requires CursorOk(s) && Enabled(s, e) && e.Refresh? && s.cursor.path == "" && !HandsOver(s, e) && s.log != ""
    ensures var t := Apply(s, e);
            && CursorOk(t) && t.cursor.path == "" && t.cursor.lastInline == s.stream[..e.inline]
            && t.delivered == s.delivered + s.stream[|s.cursor.lastInline|..e.inline]
  {
    var known := s.cursor.lastInline;
    var inline := s.stream[..e.inline];
    assert known == inline[..|known|];
    assert inline[|known|..] == s.stream[|known|..e.inline];
  }

  // ---------------------------------------------------------------------------
  // The hand-over from inline text to the file
  // ---------------------------------------------------------------------------

  /** Where the snapshot that a hand-over opens begins in the stream. */
  function SnapshotFrom(s: Follow): nat
    requires s.log in s.disk
  {
    |s.disk[s.log].content| - |SnapshotRaw(s.disk[s.log].content, SNAPSHOT_BYTES)|
  }

  ghost function HandOverSnapshot(s: Follow): Bytes
    requires s.log in s.disk
  {
    WholePart(SnapshotRaw(s.disk[s.log].content, SNAPSHOT_BYTES))
  }

  lemma HandOverSnapshotIsInStream(s: Follow)
    requires Utf8Prefix(s.stream) && FileInStream(s.log, s.stream, s.disk) && s.log in s.disk
    ensures var snap := HandOverSnapshot(s);
            var next := SnapshotFrom(s) + |snap|;
            && next <= |s.disk[s.log].content| <= |s.stream| && Utf8(s.stream[..next])
            && snap == s.stream[SnapshotFrom(s)..next] && (snap == [] ==> next == 0)
            && Utf8(s.stream[..SnapshotFrom(s)]) && |snap| <= SNAPSHOT_BYTES
  {
    hide Utf8, Utf8Prefix, Incomplete;
    FileIsPrefix(s);
    var content := s.disk[s.log].content;
    SnapshotIsATail(content, SNAPSHOT_BYTES);
    SameStretch(content, s.stream, SnapshotFrom(s), SnapshotFrom(s) + |HandOverSnapshot(s)|);
  }

  /** What a hand-over makes of the cursor and of the delivered text. */
  lemma HandOverTargets(s: Follow, e: Event)
    requires s.log != "" && Utf8Prefix(s.stream) && FileInStream(s.log, s.stream, s.disk) && CursorOk(s)
    requires Enabled(s, e) && HandsOver(s, e)
    ensures var t := Apply(s, e);
            var snap := HandOverSnapshot(s);
            var known := s.cursor.lastInline;
            && CursorOk(t) && t.cursor.path == s.log && t.cursor.offset == SnapshotFrom(s) + |snap|
            && t.cursor.offset <= |s.stream| && Utf8(s.stream[..t.cursor.offset])
            && snap == s.stream[SnapshotFrom(s)..t.cursor.offset]
            && t.delivered == s.delivered + (if known <= snap then snap[|known|..] else snap)
  {
    hide Utf8, Utf8Prefix, WholePart, SnapshotRaw;
    HandOverSnapshotIsInStream(s);
    var snap := HandOverSnapshot(s);
    var next := OpenOf(s.log, true, s.stream[..e.inline], s.disk, SNAPSHOT_BYTES);
    assert SnapshotContent(next) == snap;
    AfterKnownCases(snap, s.cursor.lastInline);
  }

  lemma AfterKnownCases(content: Bytes, known: Bytes)
    ensures AfterKnown(content, known) == if known <= content then content[|known|..] else content
  {
  }

  /** The shown inline text is the start of a snapshot of the whole file, or the snapshot starts just where it ended. */
  ghost predicate Continues(s: Follow, e: Event) {
    HandsOver(s, e) ==>
      SnapshotFrom(s) == if s.cursor.lastInline <= HandOverSnapshot(s) then 0 else |s.cursor.lastInline|
  }

  /** A hand-over continues the segment exactly under that condition. */
  lemma HandOverIsExactIff(s: Follow, base: nat, e: Event)
    requires Inv(s, base) && Enabled(s, e) && HandsOver(s, e)
    ensures Inv(Apply(s, e), base) <==> Continues(s, e)
  {
    HandOverTargets(s, e);
    var t := Apply(s, e);
    var known, snap, from := s.cursor.lastInline, HandOverSnapshot(s), SnapshotFrom(s);
    var next := t.cursor.offset;
    if known <= snap {
      assert |t.delivered| == |snap| - base;
      if from == 0 {
        assert snap[|known|..] == s.stream[|known|..next];
        Extend(s, base, t, next);
      }
    } else {
      assert |t.delivered| == |known| - base + |snap|;
      if from == |known| {
        Extend(s, base, t, next);
      }
    }
  }

  /** For a file within the snapshot bound that condition is: the file is not behind the inline text. */
  lemma CaughtUpIsTheCondition(s: Follow, base: nat, e: Event)
    requires Inv(s, base) && Enabled(s, e) && HandsOver(s, e) && |s.disk[s.log].content| <= SNAPSHOT_BYTES
    ensures Inv(Apply(s, e), base) <==> |s.cursor.lastInline| <= |s.disk[s.log].content|
  {
    HandOverIsExactIff(s, base, e);
    FileIsPrefix(s);
    assert s.stream[..|s.cursor.lastInline|] == s.cursor.lastInline;
    KnownStartsTheSnapshotIff(s.disk[s.log].content, s.stream, s.cursor.lastInline);
    assert SnapshotFrom(s) == 0;
  }

  lemma KnownStartsTheSnapshotIff(content: Bytes, stream: Bytes, known: Bytes)
    requires content <= stream && known <= stream && Utf8Prefix(content) && Utf8(known)
    ensures known <= WholePart(content) <==> |known| <= |content|
  {
    hide Utf8, Utf8Prefix, Incomplete;
    if |known| <= |content| {
      assert content[..|known|] == known;
      AlignedPrefixEndsBeforeBoundary(content, |known|);
      assert WholePart(content)[..|known|] == known;
    }
  }

  // ---------------------------------------------------------------------------
  // Theorems over runs
  // ---------------------------------------------------------------------------

  lemma StepKeepsInvIff(s: Follow, base: nat, e: Event)
    requires Inv(s, base) && Enabled(s, e)
    ensures Inv(Apply(s, e), base) <==> Continues(s, e)
  {
    hide Inv, Apply, Enabled, HandsOver;
    if HandsOver(s, e) {
      HandOverIsExactIff(s, base, e);
    } else {
      NoHandOverKeepsInv(s, base, e);
    }
  }

  lemma NoHandOverKeepsInv(s: Follow, base: nat, e: Event)
    requires Inv(s, base) && Enabled(s, e) && !HandsOver(s, e)
    ensures Inv(Apply(s, e), base)
  {
    match e
    case Append(_) => GrowthKeepsInv(s, base, e);
    case Flush(_, _) => GrowthKeepsInv(s, base, e);
    case Refresh(_, _, _) => RefreshKeepsInv(s, base, e);
    case Read(fault) => ReadKeepsInv(s, base, fault);
    case DrainAll => DrainKeepsInv(s, base);
  }

  /** After every step of the run the client has one segment of the stream that ends at the cursor. */
  ghost predicate OneSegment(s: Follow, base: nat, run: seq<Event>)
    requires Feasible(s, run)
    decreases |run|
  {
    Inv(s, base) && (run == [] || OneSegment(Apply(s, run[0]), base, run[1..]))
  }

  ghost predicate EveryHandOverContinues(s: Follow, run: seq<Event>)
    requires Feasible(s, run)
    decreases |run|
  {
    run == [] || (Continues(s, run[0]) && EveryHandOverContinues(Apply(s, run[0]), run[1..]))
  }

  /**
   Snapshot and chunks together are one segment of the stream, begun once and ending at the
   cursor, with nothing lost, repeated or cut inside a rune across inline delivery, the
   hand-over and the file, exactly when every hand-over of the run meets the condition.
   */
  lemma {:induction false} DeliveryIsContiguous(s: Follow, base: nat, run: seq<Event>)
    requires Inv(s, base) && Feasible(s, run)
    ensures OneSegment(s, base, run) <==> EveryHandOverContinues(s, run)
    ensures EveryHandOverContinues(s, run) ==> Inv(Exec(s, run), base)
    decreases |run|
  {
    hide Inv, Enabled, Apply, Continues;
    if run != [] {
      StepKeepsInvIff(s, base, run[0]);
      if Inv(Apply(s, run[0]), base) {
        DeliveryIsContiguous(Apply(s, run[0]), base, run[1..]);
      }
    }
  }

  /** A terminal drain leaves only the start of an unfinished rune undelivered. */
  lemma TerminalDrainDeliversAll(log: Path, named: bool, stream: Bytes, disk: Disk, inline: nat,
      run: seq<Event>) returns (base: nat)
    requires CanStart(log, stream, disk, inline)
    requires var s0 := Start(log, named, stream, disk, inline); Feasible(s0, run) && EveryHandOverContinues(s0, run)
    ensures var s := Exec(Start(log, named, stream, disk, inline), run);
            var t := Apply(s, DrainAll);
            && base <= Position(t.cursor) <= |s.stream| && t.delivered == s.stream[base..Position(t.cursor)]
            && Utf8(t.delivered)
            && (t.cursor.path != "" ==> OnlyAnUnfinishedRuneIsLeft(t))
  {
    var s0 := Start(log, named, stream, disk, inline);
    base := StartInv(log, named, stream, disk, inline);
    DeliveryIsContiguous(s0, base, run);
    var s := Exec(s0, run);
    DrainKeepsInv(s, base);
    DrainLeavesLittle(s, base);
    DeliveredIsUtf8(Apply(s, DrainAll), base);
  }

  ghost predicate OnlyAnUnfinishedRuneIsLeft(s: Follow) {
    && s.log in s.disk && s.cursor.offset <= |s.disk[s.log].content| <= s.cursor.offset + 3
    && var rest := s.disk[s.log].content[s.cursor.offset..]; rest == [] || Incomplete(rest)
  }

  lemma DrainLeavesLittle(s: Follow, base: nat)
    requires Inv(s, base)
    ensures var t := Apply(s, DrainAll); t.cursor.path != "" ==> OnlyAnUnfinishedRuneIsLeft(t)
  {
    if s.cursor.path != "" {
      DrainDeliversTheFile(s.cursor, s.disk, CHUNK_BYTES);
    }
  }

  lemma DeliveredIsUtf8(s: Follow, base: nat)
    requires Inv(s, base)
    ensures Utf8(s.delivered)
  {
    var shown := s.stream[..Position(s.cursor)];
    assert shown[..base] == s.stream[..base] && shown[base..] == s.delivered;
    Utf8Drop(shown, base);
  }

  /** Each chunk read on the way is whole runes and within the wire bound. */
  lemma EveryChunkIsBoundedRunes(s: Follow, base: nat, fault: IoFault)
    requires Inv(s, base)
    ensures var chunk := ReadNextOf(s.cursor, s.disk, CHUNK_BYTES, fault).chunk;
            |chunk| <= CHUNK_BYTES && Utf8(chunk)
  {
    if s.cursor.path != "" {
      ReadMovesOn(s, base, fault);
      ReadStaysAttached(s.cursor, s.disk, CHUNK_BYTES, fault);
    }
  }
}
