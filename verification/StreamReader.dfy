/** The fail-soft stream readers: forward increments and backward pages
    (`src/web/streamReader.ts`, `src/host/watcher/offsetTracker.ts`). */
module StreamReader {
  import opened Prelude
  import opened Lines

  /** Blank and unparsable lines are skipped, not reported. */
  function RecordOf<T>(parse: Parser<T>, segment: bytes): seq<T> {
    if segment == [] then []
    else match parse(segment)
      case None => []
      case Some(obj) => [obj]
  }

  function Records<T>(parse: Parser<T>, segs: seq<bytes>): seq<T> {
    if segs == [] then [] else RecordOf(parse, segs[0]) + Records(parse, segs[1..])
  }

  lemma {:induction false} RecordsAppend<T>(parse: Parser<T>, a: seq<bytes>, b: seq<bytes>)
    ensures Records(parse, a + b) == Records(parse, a) + Records(parse, b)
  {
    if a == [] {
      assert a + b == b;
    } else {
      RecordsAppend(parse, a[1..], b);
      HeadTail(a, b);
      Assoc(RecordOf(parse, a[0]), Records(parse, a[1..]), Records(parse, b));
    }
  }

  /** Every line of `b`, an unterminated last one included. */
  function AllSegments(b: bytes): seq<bytes> {
    if b == [] then []
    else
      var i := IndexOfLf(b, 0);
      if i == |b| then [b] else [b[..i]] + AllSegments(b[i + 1..])
  }

  lemma {:induction false} AllSegmentsOfClean(b: bytes)
    requires Clean(b)
    ensures AllSegments(b) == Segments(b)
    decreases |b|
  {
    if b == [] {
      SegmentsLfFree(b);
    } else {
      var line, rest := FirstLine(b);
      AllSegmentsOfClean(rest);
      SegmentsCons(line, rest);
      AllSegmentsCons(line, rest);
    }
  }

  lemma AllSegmentsCons(line: bytes, rest: bytes)
    requires LfFree(line)
    ensures AllSegments(line + [LF] + rest) == [line] + AllSegments(rest)
  {
    var b := line + [LF] + rest;
    assert b[|line|] == LF;
    assert IndexOfLf(b, 0) == |line|;
    assert b[..|line|] == line && b[|line| + 1..] == rest;
  }

  /** The lines of `b` that start at `start` or later. */
  function LinesFrom(b: bytes, start: nat): seq<bytes> {
    if start <= |b| then AllSegments(b[start..]) else []
  }

  lemma LinesFromStart(b: bytes)
    ensures LinesFrom(b, 0) == AllSegments(b)
  {
    assert b[0..] == b;
  }

  /** The scan finds the next line, however the buffer goes on past `completeLen`. */
  /** `segment` is the line that starts at `start`, and the one after it starts at `next`. */
  predicate IsLine(all: bytes, start: nat, segment: bytes, next: nat) {
    LinesFrom(all, start) == [segment] + LinesFrom(all, next)
  }

  lemma NextLine(buf: bytes, completeLen: nat, start: nat, nl: nat)
    requires start < completeLen <= |buf|
    requires nl == if IndexOfLf(buf, start) < completeLen then IndexOfLf(buf, start) else completeLen
    ensures IsLine(buf[..completeLen], start, buf[start..nl], nl + 1)
  {
    var all := buf[..completeLen];
    var rest := all[start..];
    FirstLfAfter(buf, rest, start, nl - start);
    FirstSegment(rest, nl - start);
    assert rest[..nl - start] == buf[start..nl];
    if nl < completeLen { assert rest[nl - start + 1..] == all[nl + 1..]; }
  }

  lemma FirstLfAfter(buf: bytes, rest: bytes, start: nat, i: nat)
    requires start <= |buf| && rest <= buf[start..] && i <= |rest|
    requires start + i == if IndexOfLf(buf, start) < start + |rest| then IndexOfLf(buf, start) else start + |rest|
    ensures IndexOfLf(rest, 0) == i
  {
    assert forall j :: 0 <= j < |rest| ==> rest[j] == buf[start + j];
    FirstLfAt(rest, i);
  }

  lemma FirstSegment(b: bytes, i: nat)
    requires b != [] && IndexOfLf(b, 0) == i
    ensures AllSegments(b) == [b[..i]] + LinesFrom(b, i + 1)
  {
    if i == |b| { assert b[..i] == b; }
  }

  lemma FirstLfAt(b: bytes, i: nat)
    requires i <= |b| && (forall j :: 0 <= j < i ==> b[j] != LF) && (i < |b| ==> b[i] == LF)
    ensures IndexOfLf(b, 0) == i
  {}

  /** `lines` are the records of the lines of `all` before `start`. */
  ghost predicate ReadUpTo<T>(parse: Parser<T>, all: bytes, start: nat, lines: seq<T>) {
    lines + Records(parse, LinesFrom(all, start)) == Records(parse, AllSegments(all))
  }

  lemma NothingRead<T>(parse: Parser<T>, all: bytes)
    ensures ReadUpTo(parse, all, 0, [])
  {
    LinesFromStart(all);
  }

  lemma AllRead<T>(parse: Parser<T>, all: bytes, start: nat, lines: seq<T>)
    requires ReadUpTo(parse, all, start, lines) && start >= |all|
    ensures lines == Records(parse, AllSegments(all))
  {
    NoLinesFrom(all, start);
  }

  /** Where the line that starts at `start` ends. */
  function LineEnd(buf: bytes, completeLen: nat, start: nat): (nl: nat)
    requires start < completeLen <= |buf|
    ensures start <= nl <= completeLen
    ensures nl == if IndexOfLf(buf, start) < completeLen then IndexOfLf(buf, start) else completeLen
  {
    var nl := IndexOfLf(buf, start);
    if nl == |buf| || nl >= completeLen then completeLen else nl
  }

  function WithRecord<T>(lines: seq<T>, record: Option<T>): seq<T> {
    if record.Some? then lines + [record.value] else lines
  }

  function RecordIn<T>(parse: Parser<T>, segment: bytes): Option<T> {
    if |segment| == 0 then None else parse(segment)
  }

  lemma StepRead<T>(parse: Parser<T>, all: bytes, start: nat, next: nat, segment: bytes, lines: seq<T>)
    requires IsLine(all, start, segment, next) && ReadUpTo(parse, all, start, lines)
    ensures ReadUpTo(parse, all, next, WithRecord(lines, RecordIn(parse, segment)))
  {
    AssocRecords(parse, lines, segment, LinesFrom(all, next));
  }

  /** Reads the line that starts at `start`: an empty line is skipped, and so is one that does not parse. */
  method ReadLine<T>(buf: bytes, completeLen: nat, start: nat, parse: Parser<T>)
    returns (record: Option<T>, next: nat, ghost segment: bytes)
    requires start < completeLen <= |buf|
    ensures start < next <= completeLen + 1 && record == RecordIn(parse, segment)
    ensures IsLine(buf[..completeLen], start, segment, next)
  {
    var nl := LineEnd(buf, completeLen, start);
    NextLine(buf, completeLen, start, nl);
    return RecordIn(parse, buf[start..nl]), nl + 1, buf[start..nl];
  }

  method ParseLines<T>(buf: bytes, completeLen: nat, parse: Parser<T>) returns (lines: seq<T>)
    requires completeLen <= |buf|
    ensures lines == Records(parse, AllSegments(buf[..completeLen]))
  {
    lines := [];
    var start := 0;
    ghost var all := buf[..completeLen];
    NothingRead(parse, all);
    while start < completeLen
      invariant start <= completeLen + 1
      invariant ReadUpTo(parse, all, start, lines)
    {
      ghost var from := start;
      var record;
      ghost var segment;
      record, start, segment := ReadLine(buf, completeLen, start, parse);
      StepRead(parse, all, from, start, segment, lines);
      if record.Some? { lines := lines + [record.value]; }
    }
    AllRead(parse, all, start, lines);
  }

  lemma NoLinesFrom(b: bytes, start: nat)
    requires start >= |b|
    ensures LinesFrom(b, start) == []
  {}

  lemma AssocRecords<T>(parse: Parser<T>, lines: seq<T>, segment: bytes, more: seq<bytes>)
    ensures segment == [] || parse(segment).None? ==>
      lines + Records(parse, [segment] + more) == lines + Records(parse, more)
    ensures segment != [] && parse(segment).Some? ==>
      lines + Records(parse, [segment] + more) == (lines + [parse(segment).value]) + Records(parse, more)
  {
    ConsTail(segment, more);
    Assoc(lines, RecordOf(parse, segment), Records(parse, more));
    assert lines + [] == lines;
  }

  // ---- forward increments ----

  datatype StreamRead<T> = StreamRead(lines: seq<T>, nextOffset: nat, headOffset: nat)

  /** `content` is `None` for a missing file. */
  method ReadStreamFrom<T>(content: Option<bytes>, offset: nat, parse: Parser<T>) returns (r: StreamRead<T>)
    ensures r.headOffset == offset
    ensures Progress(r.lines, r.nextOffset) == Increment(parse, content, offset)
  {
    if content == None { return StreamRead([], offset, offset); }
    var size := |content.value|;
    if size <= offset { return StreamRead([], offset, offset); }
    var buf := content.value[offset..];
    var completeLen := CompleteLen(buf);
    SegmentsOfComplete(buf);
    if completeLen == 0 {
      SegmentsLfFree(buf[..0]);
      return StreamRead([], offset, offset);
    }
    var lines := ParseLines(buf, completeLen, parse);
    AllSegmentsOfClean(buf[..completeLen]);
    return StreamRead(lines, offset + completeLen, offset);
  }

  datatype IncrementRead<T> = IncrementRead(events: seq<T>, newOffset: nat, lastReceivedAt: Option<int>)

  /** The last record that carries a numeric `receivedAt`. */
  function LastStamp<T>(stamp: T -> Option<int>, events: seq<T>): Option<int> {
    if events == [] then None
    else
      var last := stamp(events[|events| - 1]);
      if last.Some? then last else LastStamp(stamp, events[..|events| - 1])
  }

  /** The watcher's own forward reader: one loop that parses and tracks `receivedAt`. */
  method ReadStreamIncrement<T>(content: Option<bytes>, fromOffset: nat, parse: Parser<T>, stamp: T -> Option<int>)
    returns (r: IncrementRead<T>)
    ensures Progress(r.events, r.newOffset) == Increment(parse, content, fromOffset)
    ensures r.lastReceivedAt == LastStamp(stamp, r.events)
  {
    if content == None || |content.value| <= fromOffset { return IncrementRead([], fromOffset, None); }
    var buf := content.value[fromOffset..];
    var completeLen := CompleteLen(buf);
    SegmentsOfComplete(buf);
    if completeLen == 0 {
      SegmentsLfFree(buf[..0]);
      return IncrementRead([], fromOffset, None);
    }
    var events, lastReceivedAt := ParseStamped(buf, completeLen, parse, stamp);
    AllSegmentsOfClean(buf[..completeLen]);
    return IncrementRead(events, fromOffset + completeLen, lastReceivedAt);
  }

  method ParseStamped<T>(buf: bytes, completeLen: nat, parse: Parser<T>, stamp: T -> Option<int>)
    returns (events: seq<T>, lastReceivedAt: Option<int>)
    requires completeLen <= |buf|
    ensures events == Records(parse, AllSegments(buf[..completeLen]))
    ensures lastReceivedAt == LastStamp(stamp, events)
  {
    events, lastReceivedAt := [], None;
    var start := 0;
    ghost var all := buf[..completeLen];
    NothingRead(parse, all);
    assert IsLastStamp(stamp, events, lastReceivedAt);
    while start < completeLen
      invariant start <= completeLen + 1
      invariant ReadUpTo(parse, all, start, events)
      invariant IsLastStamp(stamp, events, lastReceivedAt)
    {
      ghost var from := start;
      var record;
      ghost var segment;
      record, start, segment := ReadLine(buf, completeLen, start, parse);
      StepRead(parse, all, from, start, segment, events);
      if record.Some? {
        LastStampSnoc(stamp, events, record.value, lastReceivedAt);
        events := events + [record.value];
        if stamp(record.value).Some? { lastReceivedAt := stamp(record.value); }
      }
    }
    AllRead(parse, all, start, events);
  }

  predicate IsLastStamp<T>(stamp: T -> Option<int>, events: seq<T>, last: Option<int>) {
    last == LastStamp(stamp, events)
  }

  lemma LastStampSnoc<T>(stamp: T -> Option<int>, events: seq<T>, ev: T, last: Option<int>)
    requires IsLastStamp(stamp, events, last)
    ensures IsLastStamp(stamp, events + [ev], if stamp(ev).Some? then stamp(ev) else last)
  {
    assert (events + [ev])[..|events|] == events;
  }

  /** Records read so far and the offset to go on from. */
  datatype Progress<T> = Progress(records: seq<T>, offset: nat)

  /** What one forward read from `offset` yields. */
  function Increment<T>(parse: Parser<T>, content: Option<bytes>, offset: nat): Progress<T> {
    if content.None? || |content.value| <= offset then Progress([], offset)
    else
      var buf := content.value[offset..];
      Progress(Records(parse, Segments(buf)), offset + CompleteLen(buf))
  }

  /** Successive forward reads of a growing file. */
  function Poll<T>(parse: Parser<T>, files: seq<bytes>, offset: nat): Progress<T> {
    if files == [] then Progress([], offset)
    else
      var now := Increment(parse, Some(files[0]), offset);
      var later := Poll(parse, files[1..], now.offset);
      Progress(now.records + later.records, later.offset)
  }

  predicate AppendOnly(files: seq<bytes>) {
    forall i :: 0 <= i < |files| - 1 ==> files[i] <= files[i + 1]
  }

  /** For every schedule of appends, the increments read so far, put together, are one whole read
      of the last file, and the offset is the length of its complete part. */
  lemma PollIsWholeRead<T>(parse: Parser<T>, files: seq<bytes>)
    requires files != [] && AppendOnly(files)
    ensures Poll(parse, files, 0).records == Records(parse, Segments(files[|files| - 1]))
    ensures Poll(parse, files, 0).offset == CompleteLen(files[|files| - 1])
  {
    var last := files[|files| - 1];
    assert Clean(files[0][..0]);
    PollFrom(parse, files, 0);
    assert last[0..] == last;
  }

  lemma {:induction false} PollFrom<T>(parse: Parser<T>, files: seq<bytes>, offset: nat)
    requires files != [] && AppendOnly(files)
    requires offset <= |files[0]| && Clean(files[0][..offset])
    ensures offset <= |files[|files| - 1]|
    ensures Poll(parse, files, offset).records == Records(parse, Segments(files[|files| - 1][offset..]))
    ensures Poll(parse, files, offset).offset == offset + CompleteLen(files[|files| - 1][offset..])
  {
    var f := files[0];
    var next := offset + CompleteLen(f[offset..]);
    IncrementOf(parse, f, offset);
    PollCons(parse, files, offset, next);
    if |files| == 1 {
      PollNone(parse, files[1..], next);
      var now := Increment(parse, Some(f), offset).records;
      assert now + [] == now;
    } else {
      Tail(files);
      SecondStart(files, offset, next);
      PollFrom(parse, files[1..], next);
      ReadOn(parse, f, files[|files| - 1], offset, next);
    }
  }

  lemma SecondStart(files: seq<bytes>, offset: nat, next: nat)
    requires |files| > 1 && files[0] <= files[1]
    requires offset <= |files[0]| && Clean(files[0][..offset]) && next == offset + CompleteLen(files[0][offset..])
    ensures next <= |files[1..][0]| && Clean(files[1..][0][..next])
  {
    CleanUpTo(files[0], offset);
    assert files[1][..next] == files[0][..next];
  }

  lemma ReadOn<T>(parse: Parser<T>, f: bytes, last: bytes, offset: nat, next: nat)
    requires f <= last && offset <= |f| && next == offset + CompleteLen(f[offset..])
    ensures Records(parse, Segments(last[offset..])) ==
            Records(parse, Segments(f[offset..])) + Records(parse, Segments(last[next..]))
    ensures CompleteLen(last[offset..]) == next - offset + CompleteLen(last[next..])
  {
    Slices(f, last, offset, next - offset);
    ReadSplit(parse, last[offset..], f[offset..], last[next..]);
  }

  lemma PollCons<T>(parse: Parser<T>, files: seq<bytes>, offset: nat, next: nat)
    requires files != [] && next == Increment(parse, Some(files[0]), offset).offset
    ensures Poll(parse, files, offset).records ==
            Increment(parse, Some(files[0]), offset).records + Poll(parse, files[1..], next).records
    ensures Poll(parse, files, offset).offset == Poll(parse, files[1..], next).offset
  {}

  lemma PollNone<T>(parse: Parser<T>, files: seq<bytes>, offset: nat)
    requires files == []
    ensures Poll(parse, files, offset).records == [] && Poll(parse, files, offset).offset == offset
  {}

  lemma Tail(files: seq<bytes>)
    requires |files| > 1 && AppendOnly(files)
    ensures AppendOnly(files[1..]) && files[0] <= files[1] && files[0] <= files[|files| - 1]
  {
    forall i | 0 <= i < |files| - 2 ensures files[1..][i] <= files[1..][i + 1] {
      assert files[i + 1] <= files[i + 2];
    }
    assert files[0] <= files[0 + 1];
    GrowsTo(files, 0);
  }

  lemma IncrementOf<T>(parse: Parser<T>, f: bytes, offset: nat)
    requires offset <= |f|
    ensures Increment(parse, Some(f), offset).records == Records(parse, Segments(f[offset..]))
    ensures Increment(parse, Some(f), offset).offset == offset + CompleteLen(f[offset..])
  {
    if |f| <= offset { assert f[offset..] == []; SegmentsLfFree([]); }
  }

  lemma {:induction false} GrowsTo(files: seq<bytes>, i: nat)
    requires i < |files| && AppendOnly(files)
    ensures files[i] <= files[|files| - 1]
    decreases |files| - i
  {
    if i < |files| - 1 {
      assert files[i] <= files[i + 1];
      GrowsTo(files, i + 1);
    }
  }

  lemma CleanUpTo(f: bytes, offset: nat)
    requires offset <= |f| && Clean(f[..offset])
    ensures Clean(f[..offset + CompleteLen(f[offset..])])
  {
    var n := CompleteLen(f[offset..]);
    var p := f[..offset + n];
    if n > 0 {
      assert f[offset..][n - 1] == LF;
      CompleteLenIs(p, |p|);
    } else {
      assert p == f[..offset];
    }
  }

  lemma ReadSplit<T>(parse: Parser<T>, whole: bytes, part: bytes, rest: bytes)
    requires part <= whole && rest == whole[CompleteLen(part)..]
    ensures Records(parse, Segments(whole)) == Records(parse, Segments(part)) + Records(parse, Segments(rest))
    ensures CompleteLen(whole) == CompleteLen(part) + CompleteLen(rest)
  {
    SegmentsOfComplete(part);
    CutAt(whole, part, CompleteLen(part), rest);
    AppendedRecords(parse, part[..CompleteLen(part)], rest);
    CompleteLenAppend(part[..CompleteLen(part)], rest);
  }

  lemma CutAt(whole: bytes, part: bytes, n: nat, rest: bytes)
    requires part <= whole && n <= |part| && rest == whole[n..]
    ensures whole == part[..n] + rest
  {}

  lemma Slices(f: bytes, last: bytes, offset: nat, n: nat)
    requires f <= last && offset + n <= |f|
    ensures f[offset..] <= last[offset..] && last[offset + n..] == last[offset..][n..]
  {}

  lemma AppendedRecords<T>(parse: Parser<T>, a: bytes, b: bytes)
    requires Clean(a)
    ensures Records(parse, Segments(a + b)) == Records(parse, Segments(a)) + Records(parse, Segments(b))
  {
    SegmentsAppend(a, b);
    RecordsAppend(parse, Segments(a), Segments(b));
  }

  lemma CompleteLenAppend(a: bytes, b: bytes)
    requires Clean(a)
    ensures CompleteLen(a + b) == |a| + CompleteLen(b)
  {
    var m := CompleteLen(b);
    if |a| + m > 0 {
      if m > 0 { assert (a + b)[|a| + m - 1] == b[m - 1]; } else { assert (a + b)[|a| - 1] == a[|a| - 1]; }
    }
    forall i | |a| + m <= i < |a + b| ensures (a + b)[i] != LF { assert (a + b)[i] == b[i - |a|]; }
    CompleteLenIs(a + b, |a| + m);
  }

  // ---- backward pages ----

  /** The number of newlines in `b[lo..hi]`. */
  function CountFrom(b: bytes, lo: nat, hi: nat): nat
    requires hi <= |b|
    decreases hi - lo
  {
    if lo >= hi then 0 else (if b[lo] == LF then 1 else 0) + CountFrom(b, lo + 1, hi)
  }

  /** `head` starts the last `n` lines of `b` (whose own last byte is not looked at). */
  predicate StartsLast(b: bytes, head: nat, n: nat) {
    && head < |b|
    && CountFrom(b, head, |b| - 1) <= n - 1
    && (head > 0 ==> b[head - 1] == LF && CountFrom(b, head, |b| - 1) == n - 1)
  }

  /** The backward scan for the start of the page: it stops after the `n`-th LF before the last one. */
  method ScanBack(buf: bytes, usableLen: nat, n: int) returns (head: nat)
    requires n > 0 && 0 < usableLen <= |buf|
    ensures head < usableLen && CountFrom(buf, head, usableLen - 1) <= n - 1
    ensures head > 0 ==> buf[head - 1] == LF && CountFrom(buf, head, usableLen - 1) == n - 1
  {
    var count := 0;
    head := 0;
    var i: int := usableLen - 2;
    while i >= 0
      invariant -1 <= i <= usableLen - 2
      invariant head == 0
      invariant count == CountFrom(buf, i + 1, usableLen - 1) && count <= n - 1
    {
      if buf[i] == LF {
        count := count + 1;
        if count == n {
          head := i + 1;
          break;
        }
      }
      i := i - 1;
    }
  }

  method TailStreamLines<T>(content: Option<bytes>, n: int, beforeOffset: Option<nat>, parse: Parser<T>)
    returns (r: StreamRead<T>)
    ensures n <= 0 || content.None? ==> r.lines == [] && r.nextOffset == r.headOffset == 0
    ensures n > 0 && content.Some? ==> IsPage(parse, content.value, n, beforeOffset, r)
  {
    if n <= 0 || content.None? { return StreamRead([], 0, 0); }
    var size := |content.value|;
    var right := if beforeOffset.Some? then (if beforeOffset.value < size then beforeOffset.value else size) else size;
    if right <= 0 { return StreamRead([], right, 0); }
    var buf := content.value[..right];
    var usableLen := right;
    if beforeOffset.None? {
      assert buf == content.value;
      usableLen := CompleteLen(buf);
      if usableLen == 0 { return StreamRead([], right, right); }
    }
    var head := ScanBack(buf, usableLen, n);
    var slice := buf[head..usableLen];
    var lines := ParseLines(slice, |slice|, parse);
    r := StreamRead(lines, usableLen, head);
    PageStarts(content.value, buf, head, usableLen, n);
    SameSlice(content.value, buf, head, usableLen);
    PageRead(parse, content.value, n, beforeOffset, r);
  }

  lemma PageRead<T>(parse: Parser<T>, content: bytes, n: int, beforeOffset: Option<nat>, r: StreamRead<T>)
    requires 0 < r.nextOffset == if beforeOffset.Some? then Right(content, beforeOffset) else CompleteLen(content)
    requires n > 0 && StartsLast(content[..r.nextOffset], r.headOffset, n)
    requires r.lines == Records(parse, AllSegments(content[r.headOffset..r.nextOffset]))
    ensures IsPage(parse, content, n, beforeOffset, r)
  {}

  lemma PageStarts(content: bytes, buf: bytes, head: nat, end: nat, n: int)
    requires buf <= content && head < end <= |buf| && CountFrom(buf, head, end - 1) <= n - 1
    requires head > 0 ==> buf[head - 1] == LF && CountFrom(buf, head, end - 1) == n - 1
    ensures StartsLast(content[..end], head, n)
  {
    CountAgrees(buf, content[..end], head, end - 1);
  }

  lemma SameSlice(content: bytes, buf: bytes, lo: nat, hi: nat)
    requires buf <= content && lo <= hi <= |buf|
    ensures buf[lo..hi][..hi - lo] == content[lo..hi]
  {}

  lemma {:induction false} CountAgrees(a: bytes, b: bytes, lo: nat, hi: nat)
    requires hi <= |a| && hi <= |b| && forall i :: lo <= i < hi ==> a[i] == b[i]
    ensures CountFrom(a, lo, hi) == CountFrom(b, lo, hi)
    decreases hi - lo
  {
    if lo < hi { CountAgrees(a, b, lo + 1, hi); }
  }

  function Right(content: bytes, beforeOffset: Option<nat>): (right: nat)
    ensures right <= |content|
  {
    if beforeOffset.Some? && beforeOffset.value < |content| then beforeOffset.value else |content|
  }

  /** What a page is: the bytes `[headOffset, nextOffset)` hold the last `n` lines before the right
      bound, and `lines` are their records. */
  predicate IsPage<T(==)>(parse: Parser<T>, content: bytes, n: int, beforeOffset: Option<nat>, r: StreamRead<T>) {
    var right := Right(content, beforeOffset);
    var usable := if beforeOffset.Some? then right else CompleteLen(content);
    if usable == 0 then r.lines == [] && r.nextOffset == r.headOffset == right
    else
      && r.nextOffset == usable
      && n > 0 && StartsLast(content[..usable], r.headOffset, n)
      && r.lines == Records(parse, AllSegments(content[r.headOffset..usable]))
  }

  /** The right bound of page `k`: where the next newer page starts. */
  function Bound<T>(pages: seq<StreamRead<T>>, k: nat): Option<nat>
    requires k < |pages|
  {
    if k == 0 then None else Some(pages[k - 1].headOffset)
  }

  /** Pages chained by `headOffset`, newest first. */
  predicate Chained<T(==)>(parse: Parser<T>, content: bytes, ns: seq<int>, pages: seq<StreamRead<T>>) {
    && |ns| == |pages|
    && (forall k :: 0 <= k < |ns| ==> ns[k] > 0)
    && (forall k :: 0 <= k < |pages| ==> IsPage(parse, content, ns[k], Bound(pages, k), pages[k]))
    && (forall k :: 0 <= k < |pages| - 1 ==> pages[k].headOffset > 0)
  }

  /** The pages put back in file order. */
  function InFileOrder<T>(pages: seq<StreamRead<T>>): seq<T> {
    if pages == [] then [] else pages[|pages| - 1].lines + InFileOrder(pages[..|pages| - 1])
  }

  /** Chained pages partition the complete bytes: the newest page ends where they end, each page
      ends where the next newer one starts, and the offset strictly decreases ... */
  lemma PagesPartition<T>(parse: Parser<T>, content: bytes, ns: seq<int>, pages: seq<StreamRead<T>>, k: nat)
    requires k < |pages| && Chained(parse, content, ns, pages) && CompleteLen(content) > 0
    ensures k == 0 ==> pages[k].nextOffset == CompleteLen(content)
    ensures k > 0 ==> Adjoins(pages, k)
    ensures pages[k].headOffset < pages[k].nextOffset
  {
    assert IsPage(parse, content, ns[k], Bound(pages, k), pages[k]);
    if k > 0 {
      assert IsPage(parse, content, ns[k - 1], Bound(pages, k - 1), pages[k - 1]);
    }
  }

  /** ... and put in file order, their records are one whole read from the oldest offset on. */
  lemma {:induction false} PagesCover<T>(parse: Parser<T>, content: bytes, ns: seq<int>, pages: seq<StreamRead<T>>)
    requires pages != [] && Chained(parse, content, ns, pages) && CompleteLen(content) > 0
    ensures Covers(parse, content, pages[|pages| - 1].headOffset, InFileOrder(pages))
  {
    if |pages| == 1 {
      FirstPageCovers(parse, content, ns, pages);
    } else {
      var newerNs, newer := ns[..|pages| - 1], pages[..|pages| - 1];
      ChainedPrefix(parse, content, ns, pages, newerNs, newer);
      PagesCover(parse, content, newerNs, newer);
      NextPageCovers(parse, content, ns, pages, newer);
    }
  }

  lemma FirstPageCovers<T>(parse: Parser<T>, content: bytes, ns: seq<int>, pages: seq<StreamRead<T>>)
    requires |pages| == 1 && Chained(parse, content, ns, pages) && CompleteLen(content) > 0
    ensures Covers(parse, content, pages[0].headOffset, InFileOrder(pages))
  {
    assert IsPage(parse, content, ns[0], Bound(pages, 0), pages[0]);
    NewestPage(parse, content, ns[0], pages[0]);
    OnePage(pages);
  }

  lemma NextPageCovers<T>(parse: Parser<T>, content: bytes, ns: seq<int>, pages: seq<StreamRead<T>>,
                          newer: seq<StreamRead<T>>)
    requires |pages| > 1 && Chained(parse, content, ns, pages) && CompleteLen(content) > 0
    requires newer == pages[..|pages| - 1]
    requires Covers(parse, content, newer[|newer| - 1].headOffset, InFileOrder(newer))
    ensures Covers(parse, content, pages[|pages| - 1].headOffset, InFileOrder(pages))
  {
    var k := |pages| - 1;
    assert IsPage(parse, content, ns[k], Bound(pages, k), pages[k]);
    OlderPage(parse, content, ns[k], pages[k - 1].headOffset, pages[k], InFileOrder(newer));
  }

  /** Page `k` ends where the next newer page starts. */
  predicate Adjoins<T>(pages: seq<StreamRead<T>>, k: nat)
    requires 0 < k < |pages|
  {
    pages[k].nextOffset == pages[k - 1].headOffset
  }

  lemma OnePage<T>(pages: seq<StreamRead<T>>)
    requires |pages| == 1
    ensures InFileOrder(pages) == pages[0].lines
  {
    assert pages[..0] == [];
    assert InFileOrder(pages[..0]) == [];
  }

  /** Once a chain of pages has reached offset 0 it has shown the whole file. */
  lemma PagesToTheTop<T>(parse: Parser<T>, content: bytes, ns: seq<int>, pages: seq<StreamRead<T>>)
    requires pages != [] && Chained(parse, content, ns, pages) && CompleteLen(content) > 0
    requires pages[|pages| - 1].headOffset == 0
    ensures InFileOrder(pages) == Records(parse, Segments(content))
  {
    PagesCover(parse, content, ns, pages);
    assert content[0..CompleteLen(content)] == content[..CompleteLen(content)];
    SegmentsOfComplete(content);
  }

  /** The same when the file grows between the pages: `contents[k]` is the file when page `k` is read. */
  predicate ChainedGrowing<T(==)>(parse: Parser<T>, contents: seq<bytes>, ns: seq<int>, pages: seq<StreamRead<T>>) {
    && |contents| == |ns| == |pages|
    && (forall k :: 0 <= k < |ns| ==> ns[k] > 0)
    && (forall k :: 0 <= k < |contents| ==> contents[0] <= contents[k])
    && (forall k :: 0 <= k < |pages| ==> FitsWhenRead(parse, contents, ns, pages, k))
    && (forall k :: 0 <= k < |pages| - 1 ==> pages[k].headOffset > 0)
  }

  predicate FitsWhenRead<T(==)>(parse: Parser<T>, contents: seq<bytes>, ns: seq<int>, pages: seq<StreamRead<T>>, k: nat)
    requires |contents| == |ns| == |pages| && k < |pages|
  {
    IsPage(parse, contents[k], ns[k], Bound(pages, k), pages[k])
  }

  /** A page with a right bound does not see what is appended later. */
  lemma PageOfGrown<T>(parse: Parser<T>, content: bytes, grown: bytes, n: int, bound: nat, p: StreamRead<T>)
    requires content <= grown && 0 < bound < |content| && n > 0
    ensures IsPage(parse, grown, n, Some(bound), p) <==> IsPage(parse, content, n, Some(bound), p)
  {
    assert Right(grown, Some(bound)) == Right(content, Some(bound)) == bound;
    assert content[..bound] == grown[..bound];
    if p.headOffset <= bound { assert content[p.headOffset..bound] == grown[p.headOffset..bound]; }
  }

  /** So all pages start inside the file as it was when the first one was read ... */
  lemma {:induction false} PagesStartInside<T>(parse: Parser<T>, contents: seq<bytes>, ns: seq<int>,
                                              pages: seq<StreamRead<T>>, k: nat)
    requires k < |pages| && ChainedGrowing(parse, contents, ns, pages) && CompleteLen(contents[0]) > 0
    ensures pages[k].headOffset < |contents[0]|
  {
    PageWhenRead(parse, contents, ns, pages, k);
    if k == 0 {
      NewestStart(parse, contents[0], ns[0], pages[0]);
    } else {
      PagesStartInside(parse, contents, ns, pages, k - 1);
      EarlierStart(parse, contents[k], ns[k], pages[k - 1].headOffset, pages[k]);
    }
  }

  /** ... and are pages of it. */
  lemma GrowthKeepsPages<T>(parse: Parser<T>, contents: seq<bytes>, ns: seq<int>, pages: seq<StreamRead<T>>, k: nat)
    requires k < |pages| && ChainedGrowing(parse, contents, ns, pages) && CompleteLen(contents[0]) > 0
    ensures IsPage(parse, contents[0], ns[k], Bound(pages, k), pages[k])
  {
    PageWhenRead(parse, contents, ns, pages, k);
    if k > 0 {
      PagesStartInside(parse, contents, ns, pages, k - 1);
      PageOfGrown(parse, contents[0], contents[k], ns[k], pages[k - 1].headOffset, pages[k]);
    }
  }

  lemma PageWhenRead<T>(parse: Parser<T>, contents: seq<bytes>, ns: seq<int>, pages: seq<StreamRead<T>>, k: nat)
    requires k < |pages| && ChainedGrowing(parse, contents, ns, pages)
    ensures ns[k] > 0 && contents[0] <= contents[k]
    ensures IsPage(parse, contents[k], ns[k], Bound(pages, k), pages[k])
    ensures k > 0 ==> Bound(pages, k) == Some(pages[k - 1].headOffset) && pages[k - 1].headOffset > 0
    ensures k == 0 ==> Bound(pages, k).None?
  {
    assert FitsWhenRead(parse, contents, ns, pages, k);
  }

  lemma EarlierStart<T>(parse: Parser<T>, content: bytes, n: int, bound: nat, p: StreamRead<T>)
    requires 0 < bound < |content| && n > 0 && IsPage(parse, content, n, Some(bound), p)
    ensures p.headOffset < |content|
  {}

  lemma NewestStart<T>(parse: Parser<T>, content: bytes, n: int, p: StreamRead<T>)
    requires n > 0 && CompleteLen(content) > 0 && IsPage(parse, content, n, None, p)
    ensures p.headOffset < |content|
  {}

  /** Paging backwards through a growing file shows, put in file order, all that was complete when
      the first page was read. */
  lemma GrowingPagesToTheTop<T>(parse: Parser<T>, contents: seq<bytes>, ns: seq<int>, pages: seq<StreamRead<T>>)
    requires pages != [] && ChainedGrowing(parse, contents, ns, pages) && CompleteLen(contents[0]) > 0
    ensures Covers(parse, contents[0], pages[|pages| - 1].headOffset, InFileOrder(pages))
    ensures pages[|pages| - 1].headOffset == 0 ==> InFileOrder(pages) == Records(parse, Segments(contents[0]))
  {
    forall k | 0 <= k < |pages| ensures IsPage(parse, contents[0], ns[k], Bound(pages, k), pages[k]) {
      GrowthKeepsPages(parse, contents, ns, pages, k);
    }
    PagesCover(parse, contents[0], ns, pages);
    if pages[|pages| - 1].headOffset == 0 { PagesToTheTop(parse, contents[0], ns, pages); }
  }

  /** `records` are those of the complete bytes from `oldest` on, and `oldest` starts a line. */
  predicate Covers<T(==)>(parse: Parser<T>, content: bytes, oldest: nat, records: seq<T>) {
    && oldest < CompleteLen(content)
    && Clean(content[..oldest])
    && records == Records(parse, Segments(content[oldest..CompleteLen(content)]))
  }

  lemma ChainedPrefix<T>(parse: Parser<T>, content: bytes, ns: seq<int>, pages: seq<StreamRead<T>>,
                         newerNs: seq<int>, newer: seq<StreamRead<T>>)
    requires |pages| > 1 && Chained(parse, content, ns, pages)
    requires newerNs == ns[..|pages| - 1] && newer == pages[..|pages| - 1]
    ensures Chained(parse, content, newerNs, newer)
  {
    var k := |pages| - 1;
    forall j | 0 <= j < k
      ensures IsPage(parse, content, newerNs[j], Bound(newer, j), newer[j])
    {
      assert IsPage(parse, content, ns[j], Bound(pages, j), pages[j]);
      assert Bound(newer, j) == Bound(pages, j);
    }
  }

  lemma NewestPage<T>(parse: Parser<T>, content: bytes, n: int, p: StreamRead<T>)
    requires CompleteLen(content) > 0 && IsPage(parse, content, n, None, p)
    ensures p.headOffset < p.nextOffset == CompleteLen(content)
    ensures Covers(parse, content, p.headOffset, p.lines)
  {
    var total := CompleteLen(content);
    SegmentsOfComplete(content);
    HeadOfPage(content, p.headOffset, total, n);
  }

  lemma OlderPage<T>(parse: Parser<T>, content: bytes, n: int, right: nat, p: StreamRead<T>, records: seq<T>)
    requires CompleteLen(content) > 0 && right > 0 && Covers(parse, content, right, records)
    requires IsPage(parse, content, n, Some(right), p)
    ensures p.headOffset < p.nextOffset == right
    ensures Covers(parse, content, p.headOffset, p.lines + records)
  {
    HeadOfPage(content, p.headOffset, right, n);
    JoinPages(parse, content, p.headOffset, right, CompleteLen(content));
  }

  lemma HeadOfPage(content: bytes, head: nat, right: nat, n: int)
    requires right <= |content| && Clean(content[..right]) && n > 0 && StartsLast(content[..right], head, n)
    ensures head < right && Clean(content[..head]) && Clean(content[head..right])
    ensures AllSegments(content[head..right]) == Segments(content[head..right])
  {
    PageIsClean(content, head, right);
  }

  lemma PageIsClean(content: bytes, head: nat, right: nat)
    requires head < right <= |content| && Clean(content[..right])
    requires head > 0 ==> content[head - 1] == LF
    ensures Clean(content[..head]) && Clean(content[head..right])
    ensures AllSegments(content[head..right]) == Segments(content[head..right])
  {
    CompleteLenIs(content[..head], head);
    assert content[..right][right - 1] == LF;
    CompleteLenIs(content[head..right], right - head);
    AllSegmentsOfClean(content[head..right]);
  }

  lemma JoinPages<T>(parse: Parser<T>, content: bytes, head: nat, right: nat, total: nat)
    requires head < right <= total <= |content| && Clean(content[head..right])
    ensures Records(parse, Segments(content[head..right])) + Records(parse, Segments(content[right..total]))
         == Records(parse, Segments(content[head..total]))
  {
    assert content[head..total] == content[head..right] + content[right..total];
    SegmentsAppend(content[head..right], content[right..total]);
    RecordsAppend(parse, Segments(content[head..right]), Segments(content[right..total]));
  }

  /** A page that starts at `head` and ends at a line end holds exactly the `n` lines before that
      end, or all of them if there are fewer. */
  lemma PageSize(whole: bytes, head: nat, n: int)
    requires Clean(whole) && n > 0 && StartsLast(whole, head, n)
    ensures var all := |Segments(whole)|;
            |Segments(whole[head..])| == if n < all then n else all
  {
    var before, page := whole[..head], whole[head..];
    assert whole[..|whole|] == whole && whole[head..|whole|] == page;
    PageIsClean(whole, head, |whole|);
    CountShift(whole, page, head);
    PageLines(whole, before, page);
  }

  lemma PageLines(whole: bytes, before: bytes, page: bytes)
    requires Clean(before) && Clean(page) && page != [] && whole == before + page
    ensures |Segments(page)| == CountFrom(page, 0, |page| - 1) + 1
    ensures |Segments(whole)| == |Segments(before)| + |Segments(page)|
    ensures before != [] ==> |Segments(before)| > 0
    ensures before == [] ==> |Segments(before)| == 0
  {
    CountIsSegments(page);
    SegmentsAppend(before, page);
    if before == [] { SegmentsLfFree(before); } else { SegmentsNonEmpty(before); }
  }

  lemma SegmentsNonEmpty(b: bytes)
    requires Clean(b) && b != []
    ensures |Segments(b)| > 0
  {
    var line, rest := FirstLine(b);
    SegmentsCons(line, rest);
  }

  lemma CountShift(b: bytes, page: bytes, head: nat)
    requires head < |b| && page == b[head..]
    ensures CountFrom(b, head, |b| - 1) == CountFrom(page, 0, |page| - 1)
  {
    CountShiftFrom(b, page, head, 0);
  }

  lemma {:induction false} CountShiftFrom(b: bytes, page: bytes, head: nat, k: nat)
    requires head < |b| && page == b[head..]
    ensures CountFrom(b, head + k, |b| - 1) == CountFrom(page, k, |page| - 1)
    decreases |b| - k
  {
    if head + k < |b| - 1 { CountShiftFrom(b, page, head, k + 1); }
  }

  lemma {:induction false} CountIsSegments(b: bytes)
    requires Clean(b) && b != []
    ensures |Segments(b)| == CountFrom(b, 0, |b| - 1) + 1
    decreases |b|
  {
    var line, rest := FirstLine(b);
    SegmentsCons(line, rest);
    CountLine(b, line, 0);
    if rest == [] {
      SegmentsLfFree(rest);
    } else {
      CountIsSegments(rest);
      assert rest == b[|line| + 1..];
      CountShift(b, rest, |line| + 1);
    }
  }

  lemma {:induction false} CountLine(b: bytes, line: bytes, k: nat)
    requires LfFree(line) && k <= |line| < |b| && line == b[..|line|] && b[|line|] == LF
    ensures CountFrom(b, k, |b| - 1) ==
            if |line| + 1 < |b| then 1 + CountFrom(b, |line| + 1, |b| - 1) else 0
    decreases |line| - k
  {
    if k < |line| {
      assert b[k] == line[k];
      CountLine(b, line, k + 1);
    }
  }

  // ---- what the records are ----

  /** Line by line: a line that is empty or does not parse is left out. */
  lemma RecordsAre<T>(parse: Parser<T>, segs: seq<bytes>, seg: bytes)
    ensures Records(parse, []) == []
    ensures Records(parse, segs + [seg]) ==
      if seg != [] && parse(seg).Some? then Records(parse, segs) + [parse(seg).value] else Records(parse, segs)
  {
    RecordsAppend(parse, segs, [seg]);
    assert [seg][1..] == [];
  }

  /** The stamp of a read is that of the last record that has one. */
  lemma {:induction false} LastStampIs<T>(stamp: T -> Option<int>, events: seq<T>)
    ensures LastStamp(stamp, events).None? <==> forall i :: 0 <= i < |events| ==> stamp(events[i]).None?
    ensures LastStamp(stamp, events).Some? ==>
      exists i :: 0 <= i < |events| && stamp(events[i]) == LastStamp(stamp, events)
                  && forall j :: i < j < |events| ==> stamp(events[j]).None?
  {
    if events != [] {
      var n := |events| - 1;
      LastStampIs(stamp, events[..n]);
      if stamp(events[n]).None? && LastStamp(stamp, events[..n]).Some? {
        var i :| 0 <= i < n && stamp(events[..n][i]) == LastStamp(stamp, events[..n])
                 && forall j :: i < j < n ==> stamp(events[..n][j]).None?;
        assert events[..n][i] == events[i];
        forall j | i < j < |events| ensures stamp(events[j]).None? { if j < n { assert events[..n][j] == events[j]; } }
      } else if stamp(events[n]).None? {
        forall i | 0 <= i < |events| ensures stamp(events[i]).None? { if i < n { assert events[..n][i] == events[i]; } }
      }
    }
  }
}
