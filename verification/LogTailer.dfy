/** Backward paging over a log file that other processes keep appending to
    (pkg/system/logtailer.go). */
module LogTailer {
  import opened Wrappers

  type Byte = b: int | 0 <= b < 256

  const NEWLINE: Byte := 10
  const TAIL_READ_CHUNK_SIZE := 8192

  // ------------------------------------------------------------------
  // Lines of a byte string
  // ------------------------------------------------------------------

  /** The lines of `d`: each newline closes a line, and bytes after the last
      newline form a final, unterminated line. */
  ghost function Lines(d: seq<Byte>): seq<seq<Byte>> {
    if d == [] then []
    else if d[0] == NEWLINE then [[]] + Lines(d[1..])
    else
      var rest := Lines(d[1..]);
      if rest == [] then [[d[0]]] else [[d[0]] + rest[0]] + rest[1..]
  }

  /** The text of a list of lines, every line closed by a newline. */
  ghost function Unlines(ls: seq<seq<Byte>>): seq<Byte> {
    if ls == [] then [] else ls[0] + [NEWLINE] + Unlines(ls[1..])
  }

  ghost function Newlines(d: seq<Byte>): nat {
    if d == [] then 0 else (if d[0] == NEWLINE then 1 else 0) + Newlines(d[1..])
  }

  ghost predicate EndsLine(d: seq<Byte>) {
    d == [] || d[|d| - 1] == NEWLINE
  }

  function LastN<T>(s: seq<T>, n: nat): seq<T> {
    if |s| <= n then s else s[|s| - n..]
  }

  /** `Lines` loses nothing: writing the lines back gives the text, completed
      by a newline when the last line was not terminated. */
  lemma {:induction false} UnlinesOfLines(d: seq<Byte>)
    ensures Unlines(Lines(d)) == if EndsLine(d) then d else d + [NEWLINE]
  {
    if d != [] {
      var rest := Lines(d[1..]);
      UnlinesOfLines(d[1..]);
      if d[0] == NEWLINE {
        UnlinesCons([], rest);
      } else if rest == [] {
        LinesNonEmpty(d[1..]);
        UnlinesCons([d[0]], []);
      } else {
        FirstLineGrows(d[0], rest);
      }
      assert Unlines(Lines(d)) == [d[0]] + Unlines(rest) || rest == [];
      FirstByte(d);
    }
  }

  lemma UnlinesCons(line: seq<Byte>, rest: seq<seq<Byte>>)
    ensures Unlines([line] + rest) == line + [NEWLINE] + Unlines(rest)
  {
    assert ([line] + rest)[1..] == rest;
  }

  lemma FirstLineGrows(x: Byte, ls: seq<seq<Byte>>)
    requires ls != []
    ensures Unlines([[x] + ls[0]] + ls[1..]) == [x] + Unlines(ls)
  {
    var first, rest := ls[0], ls[1..];
    UnlinesCons([x] + first, rest);
    UnlinesCons(first, rest);
    FirstAndRest(ls);
    RegroupFour([x], first, [NEWLINE], Unlines(rest));
  }

  lemma FirstAndRest<T>(s: seq<T>)
    requires s != []
    ensures s == [s[0]] + s[1..]
  {}

  lemma RegroupFour<T>(a: seq<T>, b: seq<T>, c: seq<T>, d: seq<T>)
    ensures (a + b) + c + d == a + (b + c + d)
  {}

  lemma FirstByte(d: seq<Byte>)
    requires d != []
    ensures d == [d[0]] + d[1..]
    ensures EndsLine(d) == if d[1..] == [] then d[0] == NEWLINE else EndsLine(d[1..])
    ensures d + [NEWLINE] == [d[0]] + (d[1..] + [NEWLINE])
  {}

  lemma {:induction false} LinesHaveNoNewline(d: seq<Byte>)
    ensures forall line <- Lines(d) :: NEWLINE !in line
  {
    if d != [] {
      LinesHaveNoNewline(d[1..]);
    }
  }

  /** `Lines` invents nothing: newline-free lines that were written out are
      read back unchanged, so `Lines` is the only inverse of `Unlines`. */
  lemma {:induction false} LinesOfUnlines(ls: seq<seq<Byte>>)
    requires forall i :: 0 <= i < |ls| ==> NEWLINE !in ls[i]
    ensures Lines(Unlines(ls)) == ls
  {
    if ls != [] {
      LinesOfUnlines(ls[1..]);
      LinesOfOne(ls[0]);
      var first := ls[0] + [NEWLINE];
      LinesConcat(first, Unlines(ls[1..]));
      assert Unlines(ls) == first + Unlines(ls[1..]);
    }
  }

  lemma {:induction false} LinesOfOne(line: seq<Byte>)
    requires NEWLINE !in line
    ensures Lines(line + [NEWLINE]) == [line]
  {
    var d := line + [NEWLINE];
    if line == [] {
      assert d[1..] == [];
    } else {
      LinesOfOne(line[1..]);
      assert d[1..] == line[1..] + [NEWLINE] && d[0] == line[0];
      assert line[0] in line && line == [line[0]] + line[1..];
    }
  }

  /** Cutting a text just after a newline cuts its list of lines. */
  lemma {:induction false} LinesConcat(a: seq<Byte>, b: seq<Byte>)
    requires EndsLine(a)
    ensures Lines(a + b) == Lines(a) + Lines(b)
  {
    if a == [] {
      assert a + b == b;
    } else {
      assert (a + b)[1..] == a[1..] + b;
      LinesConcat(a[1..], b);
      if a[0] != NEWLINE {
        LinesNonEmpty(a[1..]);
      }
    }
  }

  lemma LinesNonEmpty(d: seq<Byte>)
    ensures (Lines(d) == []) == (d == [])
  {}

  lemma {:induction false} NewlinesConcat(a: seq<Byte>, b: seq<Byte>)
    ensures Newlines(a + b) == Newlines(a) + Newlines(b)
  {
    if a == [] {
      assert a + b == b;
    } else {
      assert (a + b)[1..] == a[1..] + b;
      NewlinesConcat(a[1..], b);
    }
  }

  /** The number of lines is what a scan for newlines counts. */
  lemma {:induction false} CountLines(d: seq<Byte>)
    ensures |Lines(d)| == Newlines(d) + if EndsLine(d) then 0 else 1
  {
    if d != [] {
      CountLines(d[1..]);
      LinesNonEmpty(d[1..]);
    }
  }

  // ------------------------------------------------------------------
  // splitLogLines
  // ------------------------------------------------------------------

  /** bytes.Split on newline: always at least one part. */
  function Split(d: seq<Byte>): (parts: seq<seq<Byte>>)
    ensures |parts| > 0
  {
    if d == [] then [[]]
    else
      var rest := Split(d[1..]);
      if d[0] == NEWLINE then [[]] + rest else [[d[0]] + rest[0]] + rest[1..]
  }

  lemma {:induction false} SplitIsLines(d: seq<Byte>)
    ensures Split(d) == if EndsLine(d) then Lines(d) + [[]] else Lines(d)
  {
    if d != [] {
      var rest := d[1..];
      SplitIsLines(rest);
      LinesNonEmpty(rest);
      var ls := Lines(rest);
      if d[0] == NEWLINE {
        assert [[]] + (ls + [[]]) == ([[]] + ls) + [[]];
      } else if ls != [] {
        assert (ls + [[]])[0] == ls[0] && (ls + [[]])[1..] == ls[1..] + [[]];
        assert ([[d[0]] + ls[0]] + ls[1..]) + [[]] == [[d[0]] + ls[0]] + (ls[1..] + [[]]);
      } else {
        assert [d[0]] + [] == [d[0]] && [[d[0]]] + [] == [[d[0]]];
      }
    }
  }

  lemma {:induction false} SplitEndsEmpty(d: seq<Byte>)
    ensures EndsLine(d) == (Split(d)[|Split(d)| - 1] == [])
  {
    if d != [] {
      SplitEndsEmpty(d[1..]);
    }
  }

  method SplitLogLines(data: seq<Byte>) returns (lines: seq<seq<Byte>>)
    ensures lines == Lines(data)
  {
    if |data| == 0 {
      return [];
    }
    var parts := Split(data);
    SplitIsLines(data);
    SplitEndsEmpty(data);
    if |parts| > 0 && |parts[|parts| - 1]| == 0 {
      parts := parts[..|parts| - 1];
    }
    lines := [];
    for i := 0 to |parts|
      invariant lines == parts[..i]
    {
      assert parts[..i + 1] == parts[..i] + [parts[i]];
      lines := lines + [parts[i]];
    }
  }

  // ------------------------------------------------------------------
  // The log file
  // ------------------------------------------------------------------

  /** A file that only grows; any operation may find it grown since the last. */
  class LogFile {
    var contents: seq<Byte>

    constructor (initial: seq<Byte>)
      ensures contents == initial
    {
      contents := initial;
    }

    method AppendedByOthers()
      modifies this
      ensures old(contents) <= contents
    {
      var extra: seq<Byte> := *;
      contents := contents + extra;
    }

    method Stat() returns (size: nat)
      modifies this
      ensures old(contents) <= contents && size == |contents|
    {
      AppendedByOthers();
      size := |contents|;
    }

    method ReadAt(offset: nat, count: nat) returns (data: seq<Byte>)
      requires offset + count <= |contents|
      modifies this
      ensures old(contents) <= contents
      ensures data == old(contents)[offset..offset + count]
    {
      AppendedByOthers();
      data := contents[offset..offset + count];
    }
  }

  // ------------------------------------------------------------------
  // readLastLinesBefore
  // ------------------------------------------------------------------

  datatype Tail = Tail(lines: seq<seq<Byte>>, start: nat, more: bool)

  datatype LogError = LimitNotPositive

  /** `t` is the last `limit` lines of `p`, cut at a line boundary. */
  ghost predicate IsTail(p: seq<Byte>, limit: nat, t: Tail) {
    && t.start <= |p|
    && EndsLine(p[..t.start])
    && t.lines == Lines(p[t.start..])
    && t.lines == LastN(Lines(p), limit)
    && t.more == (t.start > 0)
    && t.more == (|Lines(p)| > limit)
  }

  /** A text and a limit determine the tail, its start offset included. */
  lemma TailIsUnique(p: seq<Byte>, limit: nat, t: Tail, u: Tail)
    requires IsTail(p, limit, t) && IsTail(p, limit, u)
    ensures t == u
  {
    if t.start < u.start {
      TailNotLater(p, t.start, u.start);
    } else if u.start < t.start {
      TailNotLater(p, u.start, t.start);
    }
  }

  lemma TailNotLater(p: seq<Byte>, i: nat, j: nat)
    requires i < j <= |p|
    requires EndsLine(p[..j])
    ensures |Lines(p[i..])| > |Lines(p[j..])|
  {
    assert p[i..] == p[i..j] + p[j..];
    assert p[i..j][j - i - 1] == p[..j][j - 1];
    LinesConcat(p[i..j], p[j..]);
    LinesNonEmpty(p[i..j]);
  }

  /** Where reading stops, given the size of the file and the caller's bound. */
  function EndOffset(size: nat, endBefore: int): nat {
    if 0 <= endBefore < size then endBefore else size
  }

  /** The boundary found by the scan starts exactly the last `limit` lines. */
  lemma BoundaryStartsTail(p: seq<Byte>, limit: nat, start: nat)
    requires limit > 0
    requires 0 < start <= |p| && p[start - 1] == NEWLINE
    requires 1 + Newlines(p[start..]) == if EndsLine(p) then limit + 1 else limit
    ensures |Lines(p[start..])| == limit
    ensures IsTail(p, limit, Tail(Lines(p[start..]), start, true))
  {
    CountLines(p[start..]);
    assert start < |p| ==> p[start..][|p| - start - 1] == p[|p| - 1];
    assert p == p[..start] + p[start..];
    LinesConcat(p[..start], p[start..]);
    LinesNonEmpty(p[..start]);
  }

  lemma NoBoundaryMeansWhole(p: seq<Byte>, limit: nat)
    requires limit > 0
    requires Newlines(p) < if EndsLine(p) then limit + 1 else limit
    ensures IsTail(p, limit, Tail(Lines(p), 0, false))
  {
    CountLines(p);
    assert p[0..] == p;
  }

  /** The inner loop: walk a chunk backwards until the `wanted`-th newline from
      its end. `idx` is that newline, or -1 with `left` newlines still wanted. */
  method ScanChunk(chunk: seq<Byte>, wanted: nat) returns (idx: int, left: nat)
    requires wanted > 0
    ensures -1 <= idx < |chunk|
    ensures idx == -1 ==> left > 0 && left + Newlines(chunk) == wanted
    ensures idx >= 0 ==> chunk[idx] == NEWLINE && left == 0 && 1 + Newlines(chunk[idx + 1..]) == wanted
  {
    left := wanted;
    idx := |chunk| - 1;
    while idx >= 0
      invariant -1 <= idx < |chunk|
      invariant left > 0 && left + Newlines(chunk[idx + 1..]) == wanted
    {
      assert chunk[idx..] == [chunk[idx]] + chunk[idx + 1..];
      if chunk[idx] == NEWLINE {
        left := left - 1;
        if left == 0 {
          return;
        }
      }
      idx := idx - 1;
    }
    assert chunk[0..] == chunk;
  }

  /** Read one chunk and scan it; the counts are those of the whole text. */
  method ReadAndScan(file: LogFile, from: nat, to: nat, wanted: nat, ghost p: seq<Byte>)
    returns (idx: int, left: nat)
    requires from <= to <= |p| && p <= file.contents && wanted > 0
    modifies file
    ensures old(file.contents) <= file.contents
    ensures -1 <= idx < to - from
    ensures idx == -1 ==> left > 0 && left + Newlines(p[from..]) == wanted + Newlines(p[to..])
    ensures idx >= 0 ==>
              p[from + idx] == NEWLINE && 1 + Newlines(p[from + idx + 1..]) == wanted + Newlines(p[to..])
  {
    var chunk := file.ReadAt(from, to - from);
    assert chunk == p[from..to];
    idx, left := ScanChunk(chunk, wanted);
    ChunkScanned(p, from, to, wanted, idx, left);
  }

  /** The outer loop: read chunks backwards from `endOffset` until the
      `wanted`-th newline from the end; without one the offset is 0. */
  method FindBoundary(file: LogFile, endOffset: nat, wanted: nat, chunkSize: nat, ghost p: seq<Byte>)
    returns (startOffset: nat)
    requires chunkSize > 0 && wanted > 0
    requires p <= file.contents && |p| == endOffset
    modifies file
    ensures old(file.contents) <= file.contents
    ensures startOffset == 0 ==> Newlines(p) < wanted
    ensures startOffset > 0 ==>
              && startOffset <= endOffset && p[startOffset - 1] == NEWLINE
              && 1 + Newlines(p[startOffset..]) == wanted
  {
    startOffset := 0;
    var foundBoundary := false;
    var newlinesNeeded := wanted;
    var currentOffset := endOffset;
    while currentOffset > 0 && !foundBoundary
      invariant 0 <= currentOffset <= endOffset
      invariant old(file.contents) <= file.contents && p <= file.contents
      invariant !foundBoundary ==>
                  startOffset == 0 < newlinesNeeded && newlinesNeeded + Newlines(p[currentOffset..]) == wanted
      invariant foundBoundary ==>
                  && 0 < startOffset <= endOffset && p[startOffset - 1] == NEWLINE
                  && 1 + Newlines(p[startOffset..]) == wanted
      decreases currentOffset
    {
      var chunkStart := if currentOffset < chunkSize then 0 else currentOffset - chunkSize;
      var idx;
      idx, newlinesNeeded := ReadAndScan(file, chunkStart, currentOffset, newlinesNeeded, p);
      if idx >= 0 {
        startOffset := chunkStart + idx + 1;
        foundBoundary := true;
      }
      currentOffset := chunkStart;
    }
    assert p[0..] == p;
  }

  /** What a scan of `p[from..to]` for the `before`-th newline from its end says about
      the whole text. */
  lemma ChunkScanned(p: seq<Byte>, from: nat, to: nat, before: nat, idx: int, left: nat)
    requires from <= to <= |p| && -1 <= idx < to - from
    requires idx == -1 ==> left + Newlines(p[from..to]) == before
    requires idx >= 0 ==> p[from..to][idx] == NEWLINE && 1 + Newlines(p[from..to][idx + 1..]) == before
    ensures idx == -1 ==> left + Newlines(p[from..]) == before + Newlines(p[to..])
    ensures idx >= 0 ==>
              p[from + idx] == NEWLINE && 1 + Newlines(p[from + idx + 1..]) == before + Newlines(p[to..])
  {
    SplitAtChunk(p, from + idx + 1, to);
    assert p[from..to][idx + 1..] == p[from + idx + 1..to];
  }

  lemma SplitAtChunk(p: seq<Byte>, from: nat, to: nat)
    requires from <= to <= |p|
    ensures Newlines(p[from..]) == Newlines(p[from..to]) + Newlines(p[to..])
  {
    assert p[from..] == p[from..to] + p[to..];
    NewlinesConcat(p[from..to], p[to..]);
  }

  /** The chunked backward scan. `seen` is the file at the `Stat`; appends made
      after it, between or during the reads, do not show in the result. */
  method ReadLastLinesBefore(file: LogFile, endBefore: int, limit: int, chunkSize: nat)
    returns (r: Result<Tail, LogError>, ghost seen: seq<Byte>)
    requires chunkSize > 0
    modifies file
    ensures old(file.contents) <= seen <= file.contents
    ensures limit <= 0 ==> r == Err(LimitNotPositive)
    ensures limit > 0 ==>
              r.Ok? && IsTail(seen[..EndOffset(|seen|, endBefore)], limit, r.value)
  {
    if limit <= 0 {
      return Err(LimitNotPositive), file.contents;
    }
    var endOffset := file.Stat();
    seen := file.contents;
    if endBefore >= 0 && endBefore < endOffset {
      endOffset := endBefore;
    }
    ghost var p := seen[..endOffset];
    if endOffset == 0 {
      return Ok(Tail([], 0, false)), seen;
    }

    var trailingByte := file.ReadAt(endOffset - 1, 1);
    assert trailingByte[0] == p[endOffset - 1];
    var newlinesNeeded := limit;
    if trailingByte[0] == NEWLINE {
      newlinesNeeded := newlinesNeeded + 1;
    }
    var startOffset := FindBoundary(file, endOffset, newlinesNeeded, chunkSize, p);
    var data := file.ReadAt(startOffset, endOffset - startOffset);
    assert data == p[startOffset..];
    var lines := SplitLogLines(data);
    if startOffset > 0 {
      BoundaryStartsTail(p, limit, startOffset);
    } else {
      NoBoundaryMeansWhole(p, limit);
      assert p[0..] == p;
    }
    assert LastN(lines, limit) == lines;  // the trimming never fires
    lines := LastN(lines, limit);
    return Ok(Tail(lines, startOffset, startOffset > 0)), seen;
  }

  // ------------------------------------------------------------------
  // GetPage
  // ------------------------------------------------------------------

  datatype Page = Page(lines: seq<seq<Byte>>, hasMoreOlder: bool,
                       olderCursor: Option<nat>, resumeToken: Option<nat>)

  const EMPTY_PAGE := Page([], false, None, None)

  function RequestedEnd(size: nat, before: Option<int>): int {
    if before.Some? then before.value else size
  }

  /** `page` answers a request that found `first` at its first `Stat` and
      `second` at its second. */
  ghost predicate IsPage(first: seq<Byte>, second: seq<Byte>, before: Option<int>, limit: nat, page: Page) {
    exists start: nat :: IsPageFrom(first, second, before, limit, page, start)
  }

  ghost predicate IsPageFrom(first: seq<Byte>, second: seq<Byte>, before: Option<int>, limit: nat,
                             page: Page, start: nat) {
    var end := EndOffset(|second|, RequestedEnd(|first|, before));
    && IsTail(second[..end], limit, Tail(page.lines, start, page.hasMoreOlder))
    && page.resumeToken == (if before.None? then Some(|first|) else None)
    && page.olderCursor == (if page.hasMoreOlder then Some(start) else None)
  }

  /** `file` is null when the log does not exist yet. */
  method GetPage(file: LogFile?, before: Option<int>, limit: int)
    returns (r: Result<Page, LogError>, ghost first: seq<Byte>, ghost second: seq<Byte>)
    modifies file
    ensures limit <= 0 ==> r == Err(LimitNotPositive)
    ensures limit > 0 && file == null ==> r == Ok(EMPTY_PAGE)
    ensures limit > 0 && file != null ==>
              && old(file.contents) <= first <= second <= file.contents
              && r.Ok? && IsPage(first, second, before, limit, r.value)
  {
    first, second := [], [];
    if limit <= 0 {
      r := Err(LimitNotPositive);
      return;
    }
    if file == null {
      r := Ok(EMPTY_PAGE);
      return;
    }
    var size := file.Stat();
    first := file.contents;
    var endBefore: int := size;
    if before.Some? {
      endBefore := before.value;
    }
    var tail;
    tail, second := ReadLastLinesBefore(file, endBefore, limit, TAIL_READ_CHUNK_SIZE);
    var page := Page(tail.value.lines, tail.value.more, None, None);
    if before.None? {
      page := page.(resumeToken := Some(size));
    }
    if tail.value.more {
      page := page.(olderCursor := Some(tail.value.start));
    }
    r := Ok(page);
    assert IsPageFrom(first, second, before, limit, page, tail.value.start);
  }

  // ------------------------------------------------------------------
  // Pages under concurrent appends
  // ------------------------------------------------------------------

  /** The cursors for which a request fixes what it will read at its first
      `Stat`: none, or an offset inside the file. */
  predicate FixedByFirstStat(size: nat, before: Option<int>) {
    before.None? || 0 <= before.value <= size
  }

  lemma PageIsUnique(first: seq<Byte>, second: seq<Byte>, before: Option<int>, limit: nat, a: Page, b: Page)
    requires IsPage(first, second, before, limit, a) && IsPage(first, second, before, limit, b)
    ensures a == b
  {
    var i: nat :| IsPageFrom(first, second, before, limit, a, i);
    var j: nat :| IsPageFrom(first, second, before, limit, b, j);
    TailIsUnique(second[..EndOffset(|second|, RequestedEnd(|first|, before))], limit,
                 Tail(a.lines, i, a.hasMoreOlder), Tail(b.lines, j, b.hasMoreOlder));
  }

  /** A page carries a resume token, the size at the first `Stat`, exactly when the
      request had no cursor; and an older cursor, at which its first line starts, exactly
      when there is something older. Lines end at byte 10. */
  lemma PageCarries(first: seq<Byte>, second: seq<Byte>, before: Option<int>, limit: nat, page: Page)
    requires first <= second && IsPage(first, second, before, limit, page)
    ensures page.resumeToken == if before.None? then Some(|first|) else None
    ensures page.olderCursor.Some? <==> page.hasMoreOlder
    ensures page.olderCursor.Some? ==>
              && 0 < page.olderCursor.value <= |second|
              && second[page.olderCursor.value - 1] as int == 10
              && page.lines == Lines(second[page.olderCursor.value..EndOffset(|second|, RequestedEnd(|first|, before))])
    ensures |page.lines| <= limit && (page.hasMoreOlder ==> |page.lines| == limit)
  {
    var start: nat :| IsPageFrom(first, second, before, limit, page, start);
    var end := EndOffset(|second|, RequestedEnd(|first|, before));
    if page.hasMoreOlder {
      assert second[..end][start..] == second[start..end];
    }
  }

  /** With such a cursor, whatever is appended after the first `Stat` is invisible. */
  lemma PageStable(first: seq<Byte>, second: seq<Byte>, before: Option<int>, limit: nat, page: Page)
    requires first <= second && FixedByFirstStat(|first|, before)
    ensures IsPage(first, second, before, limit, page) <==> IsPage(first, first, before, limit, page)
  {
    var end := RequestedEnd(|first|, before);
    assert first[..end] == second[..end];
    if start: nat :| IsPageFrom(first, second, before, limit, page, start) {
      assert IsPageFrom(first, first, before, limit, page, start);
    }
    if start: nat :| IsPageFrom(first, first, before, limit, page, start) {
      assert IsPageFrom(first, second, before, limit, page, start);
    }
  }

  lemma LinesSnoc(d: seq<Byte>, x: Byte)
    requires x != NEWLINE
    ensures var ls := Lines(d + [x]); ls != [] && ls[|ls| - 1] != [] && ls[|ls| - 1][|ls[|ls| - 1]| - 1] == x
  {
    var e := d + [x];
    if d == [] {
      assert e[1..] == [];
    } else {
      LinesSnoc(d[1..], x);
      assert e[1..] == d[1..] + [x];
    }
  }

  /** Such a cursor is also necessary: for any other, some append between the
      two `Stat`s changes the page. */
  lemma StableOnlyIfFixed(first: seq<Byte>, before: Option<int>, limit: nat, page: Page)
    returns (second: seq<Byte>)
    requires limit > 0 && IsPage(first, first, before, limit, page)
    requires !FixedByFirstStat(|first|, before)
    ensures first <= second && !IsPage(first, second, before, limit, page)
  {
    second := first + [1];
    if IsPage(first, second, before, limit, page) {
      PageShowsLastByte(first, 1, before, limit, page);
      second := first + [2];
      if IsPage(first, second, before, limit, page) {
        PageShowsLastByte(first, 2, before, limit, page);
      }
    }
  }

  lemma PageShowsLastByte(first: seq<Byte>, x: Byte, before: Option<int>, limit: nat, page: Page)
    requires limit > 0 && x != NEWLINE && !FixedByFirstStat(|first|, before)
    requires IsPage(first, first + [x], before, limit, page)
    ensures page.lines != []
    ensures var last := page.lines[|page.lines| - 1]; last != [] && last[|last| - 1] == x
  {
    LinesSnoc(first, x);
    var d := first + [x];
    assert d[..|d|] == d;
  }

  // ------------------------------------------------------------------
  // Following the older cursor
  // ------------------------------------------------------------------

  /** One request of a reader: what its two `Stat`s found and the answer. */
  datatype Request = Request(first: seq<Byte>, second: seq<Byte>, page: Page)

  /** The reader holds a cursor (or none, at the start) and keeps asking for the page
      before it as long as a page says that something older remains. `reqs` is what
      it has asked so far. The file may grow between and during the requests. */
  ghost predicate FollowsCursors(base: seq<Byte>, before: Option<int>, limit: nat, reqs: seq<Request>)
    decreases |reqs|
  {
    reqs == [] ||
    (&& base <= reqs[0].first <= reqs[0].second
     && IsPage(reqs[0].first, reqs[0].second, before, limit, reqs[0].page)
     && (if reqs[0].page.hasMoreOlder
         then reqs[0].page.olderCursor.Some? && FollowsCursors(base, reqs[0].page.olderCursor, limit, reqs[1..])
         else |reqs| == 1))
  }

  /** The last page says that nothing older remains. */
  ghost predicate Finished(reqs: seq<Request>) {
    reqs != [] && !reqs[|reqs| - 1].page.hasMoreOlder
  }

  /** The lines of all pages, oldest page first. */
  ghost function OldestFirst(reqs: seq<Request>): seq<seq<Byte>> {
    if reqs == [] then [] else OldestFirst(reqs[1..]) + reqs[0].page.lines
  }

  /** Where a reader that began before `end` stands now. */
  ghost function Unread(end: int, reqs: seq<Request>): int
    decreases |reqs|
  {
    if reqs == [] then end
    else if !reqs[0].page.hasMoreOlder || reqs[0].page.olderCursor.None? then 0
    else Unread(reqs[0].page.olderCursor.value, reqs[1..])
  }

  lemma FirstRequest(base: seq<Byte>, end: nat, limit: nat, r: Request)
    requires limit > 0 && end <= |base| && base <= r.first <= r.second
    requires IsPage(r.first, r.second, Some(end), limit, r.page)
    ensures var left := if r.page.hasMoreOlder then r.page.olderCursor else Some(0);
            && left.Some? && 0 <= left.value <= end && (r.page.hasMoreOlder ==> 0 < left.value < end)
            && Lines(base[..left.value]) + r.page.lines == Lines(base[..end])
  {
    var start: nat :| IsPageFrom(r.first, r.second, Some(end), limit, r.page, start);
    var p := base[..end];
    assert r.second[..end] == p;
    if r.page.hasMoreOlder {
      CursorStrictlyOlder(p, limit, Tail(r.page.lines, start, true));
    }
    assert base[..start] == p[..start];
    assert p == p[..start] + p[start..];
    LinesConcat(p[..start], p[start..]);
  }

  /** From an offset inside the base text, however far the reader has come and however
      the file grows meanwhile: the lines still unread, then the pages read, are the
      lines before the offset, none lost, split or repeated; and each request has
      moved the reader back by at least a byte. */
  lemma {:induction false} OlderPagesRebuild(base: seq<Byte>, end: nat, limit: nat, reqs: seq<Request>)
    requires limit > 0 && end <= |base| && FollowsCursors(base, Some(end), limit, reqs)
    ensures 0 <= Unread(end, reqs) <= end
    ensures Lines(base[..Unread(end, reqs)]) + OldestFirst(reqs) == Lines(base[..end])
    ensures Unread(end, reqs) == 0 <==> (reqs == [] && end == 0) || Finished(reqs)
    ensures !Finished(reqs) ==> Unread(end, reqs) + |reqs| <= end
    ensures |reqs| <= end + 1
    decreases |reqs|
  {
    if reqs != [] {
      var r, rest := reqs[0], reqs[1..];
      FirstRequest(base, end, limit, r);
      if r.page.hasMoreOlder {
        OlderPagesRebuild(base, r.page.olderCursor.value, limit, rest);
        Regroup(Lines(base[..Unread(end, reqs)]), OldestFirst(rest), r.page.lines);
        assert rest != [] ==> rest[|rest| - 1] == reqs[|reqs| - 1];
      } else {
        assert rest == [];
      }
    } else {
      Regroup([], Lines(base[..end]), []);
    }
  }

  lemma CursorStrictlyOlder(p: seq<Byte>, limit: nat, t: Tail)
    requires limit > 0 && IsTail(p, limit, t) && t.more
    ensures t.start < |p|
  {
    LinesNonEmpty(p[t.start..]);
  }

  /** The first page, asked for without a cursor, is the page before the size found. */
  lemma NewestPageIsBeforeEnd(first: seq<Byte>, second: seq<Byte>, limit: nat, page: Page)
    requires first <= second && IsPage(first, second, None, limit, page)
    ensures page.resumeToken == Some(|first|)
    ensures IsPage(first, second, Some(|first|), limit, page.(resumeToken := None))
  {
    var start: nat :| IsPageFrom(first, second, None, limit, page, start);
    assert IsPageFrom(first, second, Some(|first|), limit, page.(resumeToken := None), start);
  }

  /** Starting with no cursor and following `OlderCursor`, a reader needs at most one
      request more than the file had bytes at the first `Stat`; once it has finished,
      its pages give every line that the file held then, in order. */
  lemma PagingIsComplete(limit: nat, reqs: seq<Request>)
    requires limit > 0 && reqs != [] && FollowsCursors(reqs[0].first, None, limit, reqs)
    ensures |reqs| <= |reqs[0].first| + 1
    ensures Finished(reqs) ==> OldestFirst(reqs) == Lines(reqs[0].first)
    ensures reqs[0].page.resumeToken == Some(|reqs[0].first|)
  {
    var r := reqs[0];
    NewestPageIsBeforeEnd(r.first, r.second, limit, r.page);
    var older := [r.(page := r.page.(resumeToken := None))] + reqs[1..];
    assert older[1..] == reqs[1..];
    WholeText(r.first);
    OlderPagesRebuild(r.first, |r.first|, limit, older);
    assert older[|older| - 1].page.hasMoreOlder == reqs[|reqs| - 1].page.hasMoreOlder;
    NothingBefore(r.first);
    Regroup([], OldestFirst(older), []);
  }

  /** Its cursors strictly decrease. */
  lemma {:induction false} CursorsDecrease(base: seq<Byte>, end: nat, limit: nat, reqs: seq<Request>, i: nat, j: nat)
    requires limit > 0 && end <= |base| && FollowsCursors(base, Some(end), limit, reqs)
    requires i < j < |reqs| && reqs[j].page.hasMoreOlder
    ensures reqs[i].page.olderCursor.Some? && reqs[j].page.olderCursor.Some?
    ensures 0 < reqs[j].page.olderCursor.value < reqs[i].page.olderCursor.value < end
    decreases |reqs|
  {
    NextRequest(base, end, limit, reqs);
    var cursor := reqs[0].page.olderCursor.value;
    if i > 0 {
      CursorsDecrease(base, cursor, limit, reqs[1..], i - 1, j - 1);
    } else {
      LaterCursorIsOlder(base, cursor, limit, reqs[1..], j - 1);
    }
  }

  lemma NextRequest(base: seq<Byte>, end: nat, limit: nat, reqs: seq<Request>)
    requires limit > 0 && end <= |base| && FollowsCursors(base, Some(end), limit, reqs) && |reqs| > 1
    ensures reqs[0].page.olderCursor.Some? && 0 < reqs[0].page.olderCursor.value < end
    ensures FollowsCursors(base, reqs[0].page.olderCursor, limit, reqs[1..])
  {
    FirstRequest(base, end, limit, reqs[0]);
  }

  lemma {:induction false} LaterCursorIsOlder(base: seq<Byte>, end: nat, limit: nat, reqs: seq<Request>, j: nat)
    requires limit > 0 && end <= |base| && FollowsCursors(base, Some(end), limit, reqs)
    requires j < |reqs| && reqs[j].page.hasMoreOlder
    ensures reqs[j].page.olderCursor.Some? && 0 < reqs[j].page.olderCursor.value < end
    decreases |reqs|
  {
    FirstRequest(base, end, limit, reqs[0]);
    if j > 0 {
      LaterCursorIsOlder(base, reqs[0].page.olderCursor.value, limit, reqs[1..], j - 1);
    }
  }

  /** The reader itself: it stops, with every line of the file at the first `Stat`. */
  method ReadAllPages(file: LogFile, limit: int) returns (lines: seq<seq<Byte>>, ghost first: seq<Byte>)
    requires limit > 0
    modifies file
    ensures old(file.contents) <= first <= file.contents
    ensures lines == Lines(first)
  {
    var r;
    ghost var second;
    r, first, second := GetPage(file, None, limit);
    NewestPageIsBeforeEnd(first, second, limit, r.value);
    WholeText(first);
    NextPage(first, |first|, limit, Request(first, second, r.value.(resumeToken := None)), []);
    lines := r.value.lines;
    Regroup([], lines, []);
    var cursor := r.value.olderCursor;
    while cursor.Some?
      invariant first <= file.contents && old(file.contents) <= first
      invariant cursor.Some? ==> 0 < cursor.value <= |first| && Lines(first[..cursor.value]) + lines == Lines(first)
      invariant cursor.None? ==> lines == Lines(first)
      decreases if cursor.Some? then cursor.value else 0
    {
      ghost var before;
      r, before, second := GetPage(file, Some(cursor.value), limit);
      NextPage(first, cursor.value, limit, Request(before, second, r.value), lines);
      lines := r.value.lines + lines;
      cursor := r.value.olderCursor;
    }
  }

  /** One page more of what the reader has collected. */
  lemma NextPage(base: seq<Byte>, end: nat, limit: nat, r: Request, lines: seq<seq<Byte>>)
    requires limit > 0 && end <= |base| && base <= r.first <= r.second
    requires IsPage(r.first, r.second, Some(end), limit, r.page)
    requires Lines(base[..end]) + lines == Lines(base)
    ensures r.page.olderCursor.Some? ==>
              && 0 < r.page.olderCursor.value < end
              && Lines(base[..r.page.olderCursor.value]) + (r.page.lines + lines) == Lines(base)
    ensures r.page.olderCursor.None? ==> r.page.lines + lines == Lines(base)
  {
    FirstRequest(base, end, limit, r);
    var left := if r.page.hasMoreOlder then r.page.olderCursor.value else 0;
    Regroup(Lines(base[..left]), r.page.lines, lines);
    if !r.page.hasMoreOlder {
      NothingBefore(base);
      Regroup([], r.page.lines, lines);
    }
  }

  lemma Regroup<T>(a: seq<T>, b: seq<T>, c: seq<T>)
    ensures (a + b) + c == a + (b + c)
    ensures [] + b == b && b + [] == b
  {}

  lemma WholeText(base: seq<Byte>)
    ensures base[..|base|] == base && Lines(base[..|base|]) + [] == Lines(base)
  {
    assert base[..|base|] == base;
  }

  lemma NothingBefore(base: seq<Byte>)
    ensures Lines(base[..0]) == []
  {
    assert base[..0] == [];
  }
}
