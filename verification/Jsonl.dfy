/** The append-only JSONL files of a task capsule (`src/shared/jsonl.ts`).
    A missing file is modelled as an empty one: every operation treats the two alike. */
module Jsonl {
  import opened Prelude
  import opened Lines

  /** What a reader of a file obtains: the objects yielded before the first corrupt
      interior line, and the number of that line if there is one. */
  datatype ReadResult<T> = ReadResult(objects: seq<T>, corruptAt: Option<nat>)

  function ParseSegment<T>(parse: Parser<T>, segment: bytes): Option<T> {
    if segment == [] then None else parse(segment)
  }

  /** Reading a list of lines, numbered from `lineNo + 1`. */
  function Decode<T>(parse: Parser<T>, segs: seq<bytes>, lineNo: nat): ReadResult<T> {
    if segs == [] then ReadResult([], None)
    else match ParseSegment(parse, segs[0])
      case None => ReadResult([], Some(lineNo + 1))
      case Some(obj) =>
        var rest := Decode(parse, segs[1..], lineNo + 1);
        ReadResult([obj] + rest.objects, rest.corruptAt)
  }

  /** The reading of a whole file. */
  function Read<T>(parse: Parser<T>, content: bytes): ReadResult<T> {
    Decode(parse, Segments(content), 0)
  }

  lemma {:induction false} DecodeAppend<T>(parse: Parser<T>, a: seq<bytes>, b: seq<bytes>, lineNo: nat)
    ensures var ra := Decode(parse, a, lineNo);
            var rb := Decode(parse, b, lineNo + |a|);
            var r := Decode(parse, a + b, lineNo);
            && r.objects == (if ra.corruptAt.Some? then ra.objects else ra.objects + rb.objects)
            && r.corruptAt == (if ra.corruptAt.Some? then ra.corruptAt else rb.corruptAt)
  {
    if a == [] {
      assert a + b == b;
      assert [] + Decode(parse, b, lineNo).objects == Decode(parse, b, lineNo).objects;
    } else {
      DecodeAppend(parse, a[1..], b, lineNo + 1);
      HeadTail(a, b);
      if ParseSegment(parse, a[0]).Some? {
        Assoc([ParseSegment(parse, a[0]).value], Decode(parse, a[1..], lineNo + 1).objects,
              Decode(parse, b, lineNo + |a|).objects);
      }
    }
  }

  /** The reader gets the file in chunks of any sizes and keeps the unterminated rest between
      them; its result depends on the bytes alone, never on how they were cut. */
  method ReadLines<T>(chunks: seq<bytes>, parse: Parser<T>) returns (r: ReadResult<T>)
    ensures r == Read(parse, Concat(chunks))
  {
    var leftover: bytes := [];
    var lineNo := 0;
    var objects: seq<T> := [];
    ghost var done: bytes := [];
    var c := 0;
    while c < |chunks|
      invariant 0 <= c <= |chunks|
      invariant LfFree(leftover)
      invariant Concat(chunks[..c]) == done + leftover
      invariant ReadSoFar(parse, done, lineNo, objects)
    {
      ghost var received := Concat(chunks[..c + 1]);
      NextChunk(chunks, c, done, leftover);
      var buf := leftover + chunks[c];
      while !LfFree(buf)
        invariant received == done + buf
        invariant ReadSoFar(parse, done, lineNo, objects)
        decreases |buf|
      {
        var idx := IndexOfLf(buf, 0);
        var segment := buf[..idx];
        ghost var rest := buf[idx + 1..];
        TakeLine(received, done, buf, segment, rest);
        OneMoreLine(parse, done, segment, lineNo, objects);
        done := done + (segment + [LF]);
        buf := buf[idx + 1..];
        lineNo := lineNo + 1;
        match ParseSegment(parse, segment)
        case None =>
          FirstCorruptLine(parse, chunks, c + 1, done, buf);
          return ReadResult(objects, Some(lineNo));
        case Some(obj) =>
          objects := objects + [obj];
      }
      leftover := buf;
      c := c + 1;
    }
    assert chunks[..c] == chunks;
    EndOfFile(parse, done, leftover, lineNo, objects);
    r := ReadResult(objects, None);
  }

  /** `done` is whole lines, read without a fault. */
  predicate ReadSoFar<T(==)>(parse: Parser<T>, done: bytes, lineNo: nat, objects: seq<T>) {
    && Clean(done)
    && |Segments(done)| == lineNo
    && Decode(parse, Segments(done), 0).objects == objects
    && Decode(parse, Segments(done), 0).corruptAt == None
  }

  lemma NextChunk(chunks: seq<bytes>, c: nat, done: bytes, leftover: bytes)
    requires c < |chunks| && Concat(chunks[..c]) == done + leftover
    ensures Concat(chunks[..c + 1]) == done + (leftover + chunks[c])
  {
    assert chunks[..c + 1] == chunks[..c] + [chunks[c]];
    ConcatSnoc(chunks[..c], chunks[c]);
    Assoc(done, leftover, chunks[c]);
  }

  lemma TakeLine(received: bytes, done: bytes, buf: bytes, segment: bytes, rest: bytes)
    requires received == done + buf
    requires |segment| < |buf| && segment == buf[..|segment|] && buf[|segment|] == LF && rest == buf[|segment| + 1..]
    ensures received == done + (segment + [LF]) + rest
  {
    assert buf == segment + [LF] + rest;
    Assoc(done, segment + [LF], rest);
  }

  lemma OneMoreSegment(done: bytes, segment: bytes)
    requires Clean(done) && LfFree(segment)
    ensures Clean(done + (segment + [LF])) && Segments(done + (segment + [LF])) == Segments(done) + [segment]
  {
    var line := segment + [LF];
    SegmentsOfOne(segment);
    SegmentsAppend(done, line);
    CompleteLenIs(done + line, |done + line|);
  }

  lemma {:induction false} DecodeOneMore<T>(parse: Parser<T>, segments: seq<bytes>, segment: bytes, objects: seq<T>)
    requires Decode(parse, segments, 0) == ReadResult(objects, None)
    ensures var parsed := ParseSegment(parse, segment);
      Decode(parse, segments + [segment], 0) ==
        if parsed.Some? then ReadResult(objects + [parsed.value], None) else ReadResult(objects, Some(|segments| + 1))
  {
    DecodeAppend(parse, segments, [segment], 0);
    DecodeSingle(parse, segment, |segments|);
    assert objects + [] == objects;
  }

  lemma OneMoreLine<T>(parse: Parser<T>, done: bytes, segment: bytes, lineNo: nat, objects: seq<T>)
    requires ReadSoFar(parse, done, lineNo, objects) && LfFree(segment)
    ensures Clean(done + (segment + [LF]))
    ensures var parsed := ParseSegment(parse, segment);
            && (parsed.Some? ==> ReadSoFar(parse, done + (segment + [LF]), lineNo + 1, objects + [parsed.value]))
            && (parsed.None? ==> StopsAt(parse, done + (segment + [LF]), lineNo + 1, objects))
  {
    OneMoreSegment(done, segment);
    DecodeOneMore(parse, Segments(done), segment, objects);
  }

  predicate StopsAt<T(==)>(parse: Parser<T>, done: bytes, lineNo: nat, objects: seq<T>) {
    && Decode(parse, Segments(done), 0).objects == objects
    && Decode(parse, Segments(done), 0).corruptAt == Some(lineNo)
  }

  lemma DecodeSingle<T>(parse: Parser<T>, line: bytes, lineNo: nat)
    ensures var parsed, r := ParseSegment(parse, line), Decode(parse, [line], lineNo);
            && r.objects == (if parsed.Some? then [parsed.value] else [])
            && r.corruptAt == (if parsed.Some? then None else Some(lineNo + 1))
  {
    assert [line][1..] == [];
    assert Decode(parse, [], lineNo + 1) == ReadResult([], None);
  }

  /** Once a line is corrupt, no later byte changes the result. */
  lemma FirstCorruptLine<T>(parse: Parser<T>, chunks: seq<bytes>, c: nat, done: bytes, rest: bytes)
    requires c <= |chunks| && Clean(done) && Concat(chunks[..c]) == done + rest
    requires Decode(parse, Segments(done), 0).corruptAt.Some?
    ensures Read(parse, Concat(chunks)).objects == Decode(parse, Segments(done), 0).objects
    ensures Read(parse, Concat(chunks)).corruptAt == Decode(parse, Segments(done), 0).corruptAt
  {
    ConcatSplit(chunks, c);
    var tail := rest + Concat(chunks[c..]);
    Assoc(done, rest, Concat(chunks[c..]));
    SegmentsAppend(done, tail);
    DecodeAppend(parse, Segments(done), Segments(tail), 0);
  }

  lemma EndOfFile<T>(parse: Parser<T>, done: bytes, leftover: bytes, lineNo: nat, objects: seq<T>)
    requires ReadSoFar(parse, done, lineNo, objects) && LfFree(leftover)
    ensures Read(parse, done + leftover).objects == objects && Read(parse, done + leftover).corruptAt == None
  {
    SegmentsAppend(done, leftover);
    SegmentsLfFree(leftover);
    assert Segments(done) + [] == Segments(done);
  }

  lemma {:induction false} ConcatSplit(chunks: seq<bytes>, c: nat)
    requires c <= |chunks|
    ensures Concat(chunks) == Concat(chunks[..c]) + Concat(chunks[c..])
  {
    if c == 0 {
      assert chunks[..0] == [] && chunks[0..] == chunks;
    } else {
      ConcatSplit(chunks[1..], c - 1);
      assert chunks[..c][1..] == chunks[1..][..c - 1];
      assert chunks[1..][c - 1..] == chunks[c..];
    }
  }

  // ---- writing ----

  /** The bytes handed to one `write` call: a torn tail is closed off by a leading newline. */
  function Written(content: bytes, line: bytes): bytes {
    (if content != [] && content[|content| - 1] != LF then [LF] else []) + line + [LF]
  }

  function Truncated(content: bytes): bytes {
    content[..CompleteLen(content)]
  }

  class JsonlFile {
    var content: bytes

    constructor (content: bytes)
      ensures this.content == content
    {
      this.content := content;
    }

    method AppendLine(line: bytes)
      modifies this
      ensures content == old(content) + Written(old(content), line)
    {
      var needLeadingNl := false;
      if |content| > 0 && content[|content| - 1] != LF {
        needLeadingNl := true;
      }
      content := content + (if needLeadingNl then [LF] else []) + line + [LF];
      assert content == old(content) + Written(old(content), line);
    }

    /** The process dies after `k` bytes of the write reached the file. */
    method AppendLineCrashing(line: bytes, k: nat)
      requires k <= |Written(content, line)|
      modifies this
      ensures content == old(content) + Written(old(content), line)[..k]
    {
      content := content + Written(content, line)[..k];
    }

    method TruncatePartialTail() returns (truncated: bool)
      modifies this
      ensures content == Truncated(old(content))
      ensures truncated <==> content != old(content)
    {
      if |content| == 0 { return false; }
      if content[|content| - 1] == LF {
        CompleteLenIs(content, |content|);
        return false;
      }
      var newLen := CompleteLen(content);
      content := content[..newLen];
      return true;
    }
  }

  /** Truncation never changes what a reader sees, and leaves a clean file. */
  lemma TruncationKeepsReading<T>(parse: Parser<T>, content: bytes)
    ensures Read(parse, Truncated(content)) == Read(parse, content)
    ensures Clean(Truncated(content))
    ensures Truncated(Truncated(content)) == Truncated(content)
  {
    SegmentsOfComplete(content);
    var t := Truncated(content);
    assert t[..|t|] == t;
  }

  /** All-or-nothing append: a crash at any byte of an append to a clean file, followed by
      truncation, leaves exactly the old bytes or exactly the old bytes and the whole new line,
      and a reader sees the old objects or the old objects and the new one. */
  lemma AppendIsAtomic<T>(parse: Parser<T>, content: bytes, line: bytes, obj: T, k: nat)
    requires Clean(content) && LfFree(line) && line != [] && parse(line) == Some(obj)
    requires k <= |Written(content, line)|
    ensures var old_, whole := Read(parse, content), |Written(content, line)|;
            var after := Truncated(content + Written(content, line)[..k]);
            && after == (if k == whole then content + line + [LF] else content)
            && (old_.corruptAt.None? ==>
                  Read(parse, after) == ReadResult(old_.objects + (if k == whole then [obj] else []), None))
            && (old_.corruptAt.Some? ==> Read(parse, after) == old_)
  {
    var w := Written(content, line);
    assert w == line + [LF];
    var torn := content + w[..k];
    if k == |w| {
      assert torn == content + line + [LF];
      CompleteLenIs(torn, |torn|);
      assert Truncated(torn) == torn;
      AppendToClean(parse, content, line, obj);
    } else {
      assert forall i :: 0 <= i < k ==> w[i] == line[i];
      assert LfFree(w[..k]);
      assert forall i :: |content| <= i < |torn| ==> torn[i] == w[i - |content|];
      CompleteLenIs(torn, |content|);
      assert Truncated(torn) == content;
      assert Read(parse, content).objects + [] == Read(parse, content).objects;
    }
  }

  lemma SegmentsOfOne(line: bytes)
    requires LfFree(line)
    ensures Segments(line + [LF]) == [line]
  {
    SegmentsCons(line, []);
    assert line + [LF] + [] == line + [LF];
    SegmentsLfFree([]);
  }

  lemma AppendToClean<T>(parse: Parser<T>, content: bytes, line: bytes, obj: T)
    requires Clean(content) && LfFree(line) && line != [] && parse(line) == Some(obj)
    ensures var old_ := Read(parse, content);
            Read(parse, content + line + [LF]) ==
            if old_.corruptAt.Some? then old_ else ReadResult(old_.objects + [obj], None)
  {
    assert content + line + [LF] == content + (line + [LF]);
    SegmentsOfOne(line);
    SegmentsAppend(content, line + [LF]);
    DecodeAppend(parse, Segments(content), [line], 0);
    DecodeSingle(parse, line, |Segments(content)|);
  }

  /** What an append does to a torn file that was not truncated first: the torn bytes become an
      interior line, so a readable log stays readable exactly when those bytes parse. */
  lemma AppendToTornTail<T>(parse: Parser<T>, content: bytes, line: bytes, obj: T)
    requires LfFree(line) && line != [] && parse(line) == Some(obj)
    requires Read(parse, content).corruptAt.None?
    ensures var tail := content[CompleteLen(content)..];
            Read(parse, content + Written(content, line)).corruptAt.None? <==>
            (tail == [] || parse(tail).Some?)
  {
    var n := CompleteLen(content);
    var tail := content[n..];
    if tail == [] {
      CompleteLenIs(content, |content|);
      assert content + Written(content, line) == content + line + [LF];
      AppendToClean(parse, content, line, obj);
    } else {
      var head := content[..n];
      assert content + Written(content, line) == head + (tail + [LF] + (line + [LF]));
      SegmentsOfComplete(content);
      SegmentsAppend(head, tail + [LF] + (line + [LF]));
      SegmentsCons(tail, line + [LF]);
      SegmentsOfOne(line);
      TornThenLine(parse, Segments(head), tail, line, obj);
    }
  }

  lemma TornThenLine<T>(parse: Parser<T>, before: seq<bytes>, tail: bytes, line: bytes, obj: T)
    requires Decode(parse, before, 0).corruptAt.None?
    requires tail != [] && line != [] && parse(line) == Some(obj)
    ensures Decode(parse, before + ([tail] + [line]), 0).corruptAt.None? <==> parse(tail).Some?
  {
    DecodeAppend(parse, before, [tail] + [line], 0);
    assert ([tail] + [line])[1..] == [line];
    DecodeSingle(parse, line, |before| + 1);
  }

  // ---- what a reader sees ----

  predicate AllParse<T>(parse: Parser<T>, lines: seq<bytes>) {
    forall i :: 0 <= i < |lines| ==> lines[i] != [] && parse(lines[i]).Some?
  }

  /** Lines that all parse are read as their objects, in order. */
  lemma {:induction false} GoodLines<T>(parse: Parser<T>, lines: seq<bytes>, lineNo: nat)
    requires AllParse(parse, lines)
    ensures var r := Decode(parse, lines, lineNo);
      r.corruptAt.None? && |r.objects| == |lines| && forall i :: 0 <= i < |lines| ==> r.objects[i] == parse(lines[i]).value
    decreases |lines|
  {
    if lines != [] {
      assert forall i :: 0 <= i < |lines| - 1 ==> lines[1..][i] == lines[i + 1];
      GoodLines(parse, lines[1..], lineNo + 1);
    }
  }

  /** An empty line, or one that does not parse, ends the reading, and its number is reported. */
  lemma BadLine<T>(parse: Parser<T>, good: seq<bytes>, bad: bytes, more: seq<bytes>)
    requires AllParse(parse, good) && (bad == [] || parse(bad).None?)
    ensures var r := Decode(parse, good + [bad] + more, 0);
      r.corruptAt == Some(|good| + 1) && r.objects == Decode(parse, good, 0).objects
  {
    GoodLines(parse, good, 0);
    DecodeAppend(parse, good, [bad] + more, 0);
    assert good + [bad] + more == good + ([bad] + more);
  }

  /** A file is read line by line, and an unterminated last line is ignored. */
  lemma {:induction false} ReadLineByLine<T>(parse: Parser<T>, lines: seq<bytes>, tail: bytes)
    requires (forall i :: 0 <= i < |lines| ==> LfFree(lines[i])) && LfFree(tail)
    ensures Read(parse, Join(lines) + tail) == Decode(parse, lines, 0)
  {
    SegmentsOfJoin(lines, tail);
  }

  lemma {:induction false} SegmentsOfJoin(lines: seq<bytes>, tail: bytes)
    requires (forall i :: 0 <= i < |lines| ==> LfFree(lines[i])) && LfFree(tail)
    ensures Segments(Join(lines) + tail) == lines
    decreases |lines|
  {
    if lines == [] {
      assert Join(lines) + tail == tail;
      SegmentsLfFree(tail);
    } else {
      SegmentsOfJoin(lines[1..], tail);
      SegmentsCons(lines[0], Join(lines[1..]) + tail);
      assert Join(lines) + tail == lines[0] + [LF] + (Join(lines[1..]) + tail);
      assert [lines[0]] + lines[1..] == lines;
    }
  }
}
