/**
 UTF-8 as section 4 of RFC 3629 gives it, utf8.FullRune as Go decides it, and the chunk
 boundary and splitting loops of internal/api/loop_logs_stream.go.
 */
module Runes {
  type Byte = x: int | 0 <= x < 256
  type Bytes = seq<Byte>

  /** b & 0xC0 == 0x80. */
  predicate IsCont(b: Byte) {
    0x80 <= b < 0xC0
  }

  /** The four rune shapes of the RFC grammar. */
  predicate WellFormed(r: Bytes) {
    match |r|
    case 1 => r[0] < 0x80
    case 2 => 0xC2 <= r[0] <= 0xDF && IsCont(r[1])
    case 3 => SecondFits(r[0], r[1]) && 0xE0 <= r[0] <= 0xEF && IsCont(r[2])
    case 4 => SecondFits(r[0], r[1]) && 0xF0 <= r[0] <= 0xF4 && IsCont(r[2]) && IsCont(r[3])
    case _ => false
  }

  /** The second byte's range, which a few lead bytes narrow. */
  predicate SecondFits(lead: Byte, second: Byte) {
    if lead == 0xE0 then 0xA0 <= second <= 0xBF
    else if lead == 0xED then 0x80 <= second <= 0x9F
    else if lead == 0xF0 then 0x90 <= second <= 0xBF
    else if lead == 0xF4 then 0x80 <= second <= 0x8F
    else IsCont(second)
  }

  /** How many bytes a rune with this lead takes; 1 for ASCII and for bytes that lead nothing. */
  function Need(lead: Byte): (n: nat)
    ensures 1 <= n <= 4
  {
    if 0xC2 <= lead <= 0xDF then 2
    else if 0xE0 <= lead <= 0xEF then 3
    else if 0xF0 <= lead <= 0xF4 then 4
    else 1
  }

  /** Go's utf8.FullRune: invalid bytes count as full. */
  predicate FullRune(p: Bytes) {
    && p != []
    && (|p| >= Need(p[0])
        || (|p| > 1 && !SecondFits(p[0], p[1]))
        || (|p| > 2 && !IsCont(p[2])))
  }

  /** A sequence of whole runes. */
  predicate Utf8(s: Bytes)
    decreases |s|
  {
    s == [] || (Need(s[0]) <= |s| && WellFormed(s[..Need(s[0])]) && Utf8(s[Need(s[0])..]))
  }

  /** The start of a rune whose end is missing. */
  ghost predicate Incomplete(p: Bytes) {
    p != [] && exists rest: Bytes :: rest != [] && WellFormed(p + rest)
  }

  /** Whole runes and then possibly the start of one more: what a growing log holds at any time. */
  ghost predicate Utf8Prefix(s: Bytes)
    decreases |s|
  {
    s == [] || Incomplete(s)
    || (Need(s[0]) <= |s| && WellFormed(s[..Need(s[0])]) && Utf8Prefix(s[Need(s[0])..]))
  }

  /** Go's answer and the grammar agree: "not full" is "empty or the start of a rune". */
  lemma FullRuneIff(p: Bytes)
    ensures !FullRune(p) <==> p == [] || Incomplete(p)
  {
    if p != [] && !FullRune(p) {
      var n := Need(p[0]);
      var second: Byte := if p[0] == 0xE0 then 0xA0 else if p[0] == 0xF0 then 0x90 else 0x80;
      var rest: Bytes := if n == 2 then [second]
      else if n == 3 then (if |p| == 1 then [second, 0x80] else [0x80])
      else if |p| == 1 then [second, 0x80, 0x80]
      else if |p| == 2 then [0x80, 0x80]
      else [0x80];
      assert WellFormed(p + rest);
    }
    if p != [] && Incomplete(p) {
      var rest: Bytes :| rest != [] && WellFormed(p + rest);
      assert (p + rest)[0] == p[0];
      assert |p| > 1 ==> (p + rest)[1] == p[1];
      assert |p| > 2 ==> (p + rest)[2] == p[2];
    }
  }

  /** An incomplete rune is a lead byte and one or two continuation bytes at most. */
  lemma IncompleteShape(p: Bytes)
    requires Incomplete(p)
    ensures 1 <= |p| <= 3 && 0xC2 <= p[0] && !IsCont(p[0])
    ensures forall i :: 1 <= i < |p| ==> IsCont(p[i])
  {
    var rest: Bytes :| rest != [] && WellFormed(p + rest);
    forall i | 0 <= i < |p|
      ensures (p + rest)[i] == p[i]
    {
    }
  }

  lemma IncompleteAt(t: Bytes, i: nat)
    requires i <= |t| && Incomplete(t[i..])
    ensures i < |t| <= i + 3 && 0xC2 <= t[i] && !IsCont(t[i])
    ensures forall j :: i < j < |t| ==> IsCont(t[j])
  {
    IncompleteShape(t[i..]);
    forall j | i <= j < |t|
      ensures t[j] == t[i..][j - i]
    {
    }
  }

  lemma IncompleteSuffixIsUnique(t: Bytes, i: nat, j: nat)
    requires i <= |t| && j <= |t| && Incomplete(t[i..]) && Incomplete(t[j..])
    ensures i == j
  {
    IncompleteAt(t, i);
    IncompleteAt(t, j);
  }

  // ---------------------------------------------------------------------------
  // Whole runes
  // ---------------------------------------------------------------------------

  lemma RuneShape(r: Bytes)
    requires WellFormed(r)
    ensures 1 <= |r| == Need(r[0]) && !IsCont(r[0])
    ensures forall i :: 1 <= i < |r| ==> IsCont(r[i])
  {
  }

  lemma DropIndex(s: Bytes, n: nat, j: nat)
    requires n + j < |s|
    ensures s[n..][j] == s[n + j]
  {
  }

  lemma SliceOfSlice(s: Bytes, n: nat, m: nat)
    requires n <= m <= |s|
    ensures s[..m][n..] == s[n..][..m - n] && s[..m][..n] == s[..n]
    ensures s[m..] == s[n..][m - n..]
  {
  }

  lemma RuneThenWhole(s: Bytes, n: nat, k: nat)
    requires s != [] && n == Need(s[0]) <= |s| && WellFormed(s[..n]) && n <= k <= |s|
    ensures Utf8(s[..k]) <==> Utf8(s[n..][..k - n])
    ensures s[k..] == s[n..][k - n..]
  {
    SliceOfSlice(s, n, k);
    assert s[..k][0] == s[0];
  }

  lemma EmptyIsWhole()
    ensures Utf8([])
  {
  }

  lemma {:induction false} Utf8Concat(a: Bytes, b: Bytes)
    requires Utf8(a) && Utf8(b)
    ensures Utf8(a + b)
    decreases |a|
  {
    if a == [] {
      assert a + b == b;
    } else {
      var n := Need(a[0]);
      Utf8Concat(a[n..], b);
      AppendAfterRune(a, b, n);
    }
  }

  lemma AppendAfterRune(a: Bytes, b: Bytes, n: nat)
    requires a != [] && n == Need(a[0]) <= |a| && WellFormed(a[..n]) && Utf8(a[n..] + b)
    ensures Utf8(a + b)
  {
    var t := a + b;
    assert t[..n] == a[..n] && t[n..] == a[n..] + b && t[0] == a[0];
  }

  /** Cutting whole runes off the front leaves what was whole, or a prefix of whole runes, as it was. */
  lemma {:induction false} Utf8Drop(s: Bytes, k: nat)
    requires k <= |s| && Utf8(s[..k])
    ensures Utf8(s) <==> Utf8(s[k..])
    ensures Utf8Prefix(s) <==> Utf8Prefix(s[k..])
    decreases k
  {
    if k == 0 {
      assert s[0..] == s;
    } else {
      var n := StartsWithRune(s, k);
      RuneThenWhole(s, n, k);
      Utf8Drop(s[n..], k - n);
      PrefixAfterRune(s, n);
    }
  }

  lemma StartsWithRune(s: Bytes, k: nat) returns (n: nat)
    requires 0 < k <= |s| && Utf8(s[..k])
    ensures n == Need(s[0]) <= k && WellFormed(s[..n])
  {
    n := Need(s[0]);
    assert s[..k][0] == s[0] && s[..k][..n] == s[..n];
  }

  lemma PrefixAfterRune(s: Bytes, n: nat)
    requires s != [] && n == Need(s[0]) <= |s| && WellFormed(s[..n])
    ensures Utf8Prefix(s) <==> Utf8Prefix(s[n..])
  {
    FullRuneIff(s);
  }

  /** Where the whole runes of a growing log end. */
  lemma {:induction false} PrefixCut(s: Bytes) returns (k: nat)
    requires Utf8Prefix(s)
    ensures k <= |s| && Utf8(s[..k]) && (k == |s| || Incomplete(s[k..]))
    decreases |s|
  {
    if s == [] || Incomplete(s) {
      k := 0;
      assert s[0..] == s;
    } else {
      var n := Need(s[0]);
      var rest := PrefixCut(s[n..]);
      k := n + rest;
      RuneThenWhole(s, n, k);
    }
  }

  lemma PrefixOfRune(r: Bytes, k: nat)
    requires WellFormed(r) && 0 < k < |r|
    ensures Incomplete(r[..k])
  {
    assert r[..k] + r[k..] == r;
  }

  lemma PrefixOfIncomplete(p: Bytes, k: nat)
    requires Incomplete(p) && 0 < k <= |p|
    ensures Incomplete(p[..k])
  {
    var rest: Bytes :| rest != [] && WellFormed(p + rest);
    PrefixOfRune(p + rest, k);
    assert (p + rest)[..k] == p[..k];
  }

  /** Whatever has arrived so far of a growing log is again such a log. */
  lemma {:induction false} PrefixOfPrefix(s: Bytes, m: nat)
    requires m <= |s| && Utf8Prefix(s)
    ensures Utf8Prefix(s[..m])
    decreases |s|
  {
    if m > 0 {
      var n := Need(s[0]);
      if Incomplete(s) {
        PrefixOfIncomplete(s, m);
      } else if m < n {
        PrefixOfRune(s[..n], m);
        assert s[..n][..m] == s[..m];
      } else {
        PrefixOfPrefix(s[n..], m - n);
        SliceOfSlice(s, n, m);
        assert s[..m][0] == s[0];
        PrefixAfterRune(s[..m], n);
      }
    }
  }

  lemma {:induction false} WholeIsPrefix(s: Bytes)
    requires Utf8(s)
    ensures Utf8Prefix(s)
    decreases |s|
  {
    if s != [] {
      WholeIsPrefix(s[Need(s[0])..]);
    }
  }

  lemma {:induction false} WholeHasNoIncompleteSuffix(s: Bytes, k: nat)
    requires Utf8(s) && k < |s|
    ensures !Incomplete(s[k..])
    decreases |s|
  {
    var n := Need(s[0]);
    if k == 0 {
      assert s[0..] == s;
      FullRuneIff(s);
    } else if k < n {
      RuneShape(s[..n]);
      assert IsCont(s[..n][k]);
      if Incomplete(s[k..]) {
        IncompleteAt(s, k);
      }
    } else {
      WholeHasNoIncompleteSuffix(s[n..], k - n);
      assert s[n..][k - n..] == s[k..];
    }
  }

  /** In a growing valid log every byte that is not a continuation starts a rune. */
  lemma {:induction false} LeadByteIsBoundary(s: Bytes, i: nat)
    requires Utf8Prefix(s) && i < |s| && !IsCont(s[i])
    ensures Utf8(s[..i])
    decreases |s|
  {
    if i > 0 {
      var n := FirstRune(s, i);
      PrefixAfterRune(s, n);
      LeadByteIsBoundary(s[n..], i - n);
      RuneThenWhole(s, n, i);
    }
  }

  /** A log with a lead byte after its first byte starts with a whole rune that ends by then. */
  lemma FirstRune(s: Bytes, i: nat) returns (n: nat)
    requires Utf8Prefix(s) && 0 < i < |s| && !IsCont(s[i])
    ensures n == Need(s[0]) <= i && WellFormed(s[..n])
  {
    n := Need(s[0]);
    if Incomplete(s) {
      IncompleteShape(s);
    } else {
      RuneBytes(s, n);
    }
  }

  lemma RuneBytes(s: Bytes, n: nat)
    requires n <= |s| && WellFormed(s[..n])
    ensures forall j :: 1 <= j < n ==> IsCont(s[j])
  {
    RuneShape(s[..n]);
    forall j | 1 <= j < n
      ensures IsCont(s[j])
    {
      assert s[..n][j] == s[j];
    }
  }

  /** A valid log never has four continuation bytes in a row. */
  lemma {:induction false} LeadWithinFour(s: Bytes, i: nat) returns (j: nat)
    requires Utf8Prefix(s) && i + 4 <= |s|
    ensures i <= j < i + 4 && !IsCont(s[j])
    decreases |s|
  {
    if Incomplete(s) {
      IncompleteShape(s);
    }
    var n := Need(s[0]);
    if i == 0 {
      FirstOfPrefix(s);
      j := 0;
    } else if i >= n {
      var k := LeadWithinFour(s[n..], i - n);
      j := n + k;
    } else {
      FirstOfPrefix(s[n..]);
      j := n;
    }
  }

  lemma FirstOfPrefix(s: Bytes)
    requires s != [] && Utf8Prefix(s)
    ensures !IsCont(s[0])
  {
    if Incomplete(s) {
      IncompleteShape(s);
    } else {
      RuneShape(s[..Need(s[0])]);
    }
  }

  // ---------------------------------------------------------------------------
  // The chunk boundary
  // ---------------------------------------------------------------------------

  /** The first position from `i` on where an incomplete rune begins, or the end when there is none. */
  ghost function CutFrom(raw: Bytes, i: nat): (cut: nat)
    requires i <= |raw|
    ensures i <= cut <= |raw|
    decreases |raw| - i
  {
    if i == |raw| || Incomplete(raw[i..]) then i else CutFrom(raw, i + 1)
  }

  /** Where the incomplete rune at the end begins, or the end when there is none. */
  ghost function WholeRunes(raw: Bytes): nat {
    CutFrom(raw, 0)
  }

  lemma {:induction false} CutFromIs(raw: Bytes, i: nat)
    requires i <= |raw|
    ensures var cut := CutFrom(raw, i);
            && (cut < |raw| ==> Incomplete(raw[cut..]))
            && (cut == |raw| ==> forall k :: i <= k < |raw| ==> !Incomplete(raw[k..]))
    decreases |raw| - i
  {
    if i < |raw| && !Incomplete(raw[i..]) {
      CutFromIs(raw, i + 1);
    }
  }

  lemma WholeRunesIs(raw: Bytes, cut: nat)
    requires cut <= |raw|
    requires if cut < |raw| then Incomplete(raw[cut..]) else forall k :: 0 <= k < |raw| ==> !Incomplete(raw[k..])
    ensures WholeRunes(raw) == cut
  {
    CutFromIs(raw, 0);
    if cut < |raw| {
      IncompleteSuffixIsUnique(raw, cut, WholeRunes(raw));
    }
  }

  /** At most three bytes are held back, whatever the bytes are, and they start a rune. */
  lemma HeldBackIsShort(raw: Bytes)
    ensures var cut := WholeRunes(raw);
            |raw| - 3 <= cut <= |raw| && (cut < |raw| ==> Incomplete(raw[cut..]))
  {
    var cut := WholeRunes(raw);
    CutFromIs(raw, 0);
    if cut < |raw| {
      IncompleteShape(raw[cut..]);
    }
  }

  /** On a growing valid log the boundary leaves whole runes on its left. */
  lemma BoundaryKeepsRunesWhole(raw: Bytes)
    requires Utf8Prefix(raw)
    ensures Utf8(raw[..WholeRunes(raw)])
  {
    var k := PrefixCut(raw);
    if k == |raw| {
      assert raw[..k] == raw;
      forall j | 0 <= j < |raw|
        ensures !Incomplete(raw[j..])
      {
        WholeHasNoIncompleteSuffix(raw, j);
      }
    }
    WholeRunesIs(raw, k);
  }

  /** Every rune-aligned prefix of a log ends at or before the boundary. */
  lemma AlignedPrefixEndsBeforeBoundary(raw: Bytes, m: nat)
    requires Utf8Prefix(raw) && m <= |raw| && Utf8(raw[..m])
    ensures m <= WholeRunes(raw)
  {
    var cut := WholeRunes(raw);
    HeldBackIsShort(raw);
    if cut < m {
      var t := raw[..m];
      BoundaryKeepsRunesWhole(raw);
      assert t[..cut] == raw[..cut];
      Utf8Drop(t, cut);
      var tail := t[cut..];
      assert tail[0] == raw[cut..][0] && |tail| <= |raw[cut..]|;
      FullRuneIff(raw[cut..]);
    }
  }

  method Utf8ChunkBoundary(raw: Bytes, maxBytes: int) returns (cut: nat)
    ensures maxBytes <= 0 ==> cut == 0
    ensures 0 < maxBytes && |raw| < maxBytes ==> cut == |raw|
    ensures 0 < maxBytes <= |raw| ==> cut == WholeRunes(raw[..maxBytes])
  {
    if maxBytes <= 0 {
      return 0;
    }
    if |raw| < maxBytes {
      return |raw|;
    }
    var start := maxBytes - 1;
    while start > 0 && IsCont(raw[start])
      invariant 0 <= start < maxBytes
      invariant forall i :: start < i < maxBytes ==> IsCont(raw[i])
    {
      start := start - 1;
    }
    FullRuneIff(raw[start..maxBytes]);
    ghost var seen := raw[..maxBytes];
    assert seen[start..] == raw[start..maxBytes];
    if !FullRune(raw[start..maxBytes]) {
      WholeRunesIs(seen, start);
      return start;
    }
    forall k | 0 <= k < |seen|
      ensures !Incomplete(seen[k..])
    {
      NoIncompleteSuffix(seen, start, k);
    }
    WholeRunesIs(seen, maxBytes);
    return maxBytes;
  }

  /** With only continuation bytes after `start`, the one candidate for an incomplete rune begins there. */
  lemma NoIncompleteSuffix(seen: Bytes, start: nat, k: nat)
    requires start < |seen| && k < |seen| && !Incomplete(seen[start..])
    requires start == 0 || !IsCont(seen[start])
    requires forall i :: start < i < |seen| ==> IsCont(seen[i])
    ensures !Incomplete(seen[k..])
  {
    if k != start && Incomplete(seen[k..]) {
      IncompleteAt(seen, k);
    }
  }

  // ---------------------------------------------------------------------------
  // Splitting for the wire
  // ---------------------------------------------------------------------------

  method SplitChunk(content: Bytes, maxBytes: nat) returns (chunk: Bytes, remaining: Bytes)
    requires maxBytes > 0
    ensures chunk + remaining == content && |chunk| <= maxBytes && (content != [] ==> chunk != [])
    ensures maxBytes >= 4 && Utf8(content) ==> Utf8(chunk) && Utf8(remaining)
  {
    hide Utf8, Incomplete;
    EmptyIsWhole();
    if |content| <= maxBytes {
      return content, [];
    }
    var cut := Utf8ChunkBoundary(content, maxBytes);
    HeldBackIsShort(content[..maxBytes]);
    if cut == 0 {
      cut := maxBytes;
    }
    chunk, remaining := content[..cut], content[cut..];
    if maxBytes >= 4 && Utf8(content) {
      CutSplitsWhole(content, maxBytes);
    }
  }

  lemma CutSplitsWhole(content: Bytes, max: nat)
    requires Utf8(content) && max <= |content|
    ensures var cut := WholeRunes(content[..max]);
            cut <= max && Utf8(content[..cut]) && Utf8(content[cut..])
  {
    var cut := WholeRunes(content[..max]);
    HeldBackIsShort(content[..max]);
    WholeIsPrefix(content);
    PrefixOfPrefix(content, max);
    BoundaryKeepsRunesWhole(content[..max]);
    assert content[..max][..cut] == content[..cut];
    Utf8Drop(content, cut);
  }

  function Concat(pieces: seq<Bytes>): Bytes {
    if pieces == [] then [] else pieces[0] + Concat(pieces[1..])
  }

  lemma {:induction false} ConcatPush(pieces: seq<Bytes>, last: Bytes)
    ensures Concat(pieces + [last]) == Concat(pieces) + last
  {
    if pieces == [] {
      assert [] + [last] == [last];
    } else {
      ConcatPush(pieces[1..], last);
      assert (pieces + [last])[1..] == pieces[1..] + [last];
    }
  }

  /** writeLoopLogsChunk: the pieces are the content, each is non-empty, bounded and, on valid text, whole runes. */
  method WriteChunks(content: Bytes, maxBytes: nat) returns (pieces: seq<Bytes>)
    requires maxBytes > 0
    ensures Concat(pieces) == content
    ensures forall i :: 0 <= i < |pieces| ==> 0 < |pieces[i]| <= maxBytes
    ensures maxBytes >= 4 && Utf8(content) ==> forall i :: 0 <= i < |pieces| ==> Utf8(pieces[i])
  {
    pieces := [];
    var rest := content;
    while rest != []
      invariant Concat(pieces) + rest == content
      invariant forall i :: 0 <= i < |pieces| ==> 0 < |pieces[i]| <= maxBytes
      invariant maxBytes >= 4 && Utf8(content) ==> Utf8(rest) && forall i :: 0 <= i < |pieces| ==> Utf8(pieces[i])
      decreases |rest|
    {
      var chunk, remaining := SplitChunk(rest, maxBytes);
      ConcatPush(pieces, chunk);
      pieces, rest := pieces + [chunk], remaining;
    }
  }

  /** trimIncompleteUTF8Prefix: drop leading continuation bytes. */
  method TrimIncompletePrefix(raw: Bytes) returns (trimmed: Bytes)
    ensures trimmed == raw[LeadingConts(raw)..]
  {
    trimmed := raw;
    var n := 0;
    while |trimmed| > 0 && IsCont(trimmed[0])
      invariant n <= |raw| && trimmed == raw[n..] && LeadingConts(raw) == n + LeadingConts(trimmed)
      decreases |trimmed|
    {
      trimmed, n := trimmed[1..], n + 1;
    }
  }

  function LeadingConts(raw: Bytes): (n: nat)
    ensures n <= |raw|
    ensures forall i :: 0 <= i < n ==> IsCont(raw[i])
    ensures n < |raw| ==> !IsCont(raw[n])
  {
    if raw != [] && IsCont(raw[0]) then 1 + LeadingConts(raw[1..]) else 0
  }

  /** A tail of a valid log, trimmed, starts at a rune boundary and loses at most three bytes. */
  lemma TrimFindsBoundary(s: Bytes, start: nat)
    requires Utf8Prefix(s) && start + 4 <= |s|
    ensures var n := LeadingConts(s[start..]); n <= 3 && Utf8(s[..start + n])
  {
    hide Utf8, Utf8Prefix, Incomplete;
    var n := LeadingConts(s[start..]);
    var j := LeadWithinFour(s, start);
    assert s[start..][j - start] == s[j];
    assert s[start..][n] == s[start + n];
    LeadByteIsBoundary(s, start + n);
  }
}
