/** Byte buffers and their division into lines: the vocabulary shared by the JSONL
    log files and by the stream readers. */
module Lines {
  import opened Prelude

  newtype byte = x: int | 0 <= x < 0x100

  type bytes = seq<byte>

  const LF: byte := 0x0a

  /** UTF-8 decoding, `JSON.parse` and the check that the result is an object, taken together. */
  type Parser<!T> = bytes -> Option<T>

  /** `buf.lastIndexOf(LF) + 1`: the length of the part of `b` that ends with a newline. */
  function CompleteLen(b: bytes): (n: nat)
    ensures n <= |b|
    ensures n > 0 ==> b[n - 1] == LF
    ensures forall i :: n <= i < |b| ==> b[i] != LF
  {
    if b == [] then 0
    else if b[|b| - 1] == LF then |b|
    else CompleteLen(b[..|b| - 1])
  }

  /** `buf.indexOf(LF, from)`, with `|b|` standing for "not found". */
  function IndexOfLf(b: bytes, from: nat): (i: nat)
    requires from <= |b|
    ensures from <= i <= |b|
    ensures i < |b| ==> b[i] == LF
    ensures forall j :: from <= j < i ==> b[j] != LF
    decreases |b| - from
  {
    if from == |b| || b[from] == LF then from else IndexOfLf(b, from + 1)
  }

  predicate LfFree(b: bytes) {
    forall i :: 0 <= i < |b| ==> b[i] != LF
  }

  /** A buffer that is empty or ends with a newline. */
  predicate Clean(b: bytes) {
    CompleteLen(b) == |b|
  }

  /** The newline-terminated lines of `b`, without their newline; an unterminated tail is no line. */
  function Segments(b: bytes): seq<bytes> {
    var i := IndexOfLf(b, 0);
    if i == |b| then [] else [b[..i]] + Segments(b[i + 1..])
  }

  /** The bytes of a sequence of lines. */
  function Join(segs: seq<bytes>): bytes {
    if segs == [] then [] else segs[0] + [LF] + Join(segs[1..])
  }

  /** The bytes of a sequence of chunks. */
  function Concat(chunks: seq<bytes>): bytes {
    if chunks == [] then [] else chunks[0] + Concat(chunks[1..])
  }

  lemma {:induction false} ConcatSnoc(chunks: seq<bytes>, c: bytes)
    ensures Concat(chunks + [c]) == Concat(chunks) + c
  {
    if chunks == [] {
      assert chunks + [c] == [c];
      assert Concat([c]) == c + Concat([]);
    } else {
      ConcatSnoc(chunks[1..], c);
      assert (chunks + [c])[1..] == chunks[1..] + [c];
    }
  }

  /** `n` is determined by what `CompleteLen` promises. */
  lemma CompleteLenIs(b: bytes, n: nat)
    requires n <= |b| && (n > 0 ==> b[n - 1] == LF)
    requires forall i :: n <= i < |b| ==> b[i] != LF
    ensures CompleteLen(b) == n
  {
    if n < |b| { CompleteLenIs(b[..|b| - 1], n); }
  }

  /** A first line in front of more bytes is the first segment. */
  lemma SegmentsCons(line: bytes, rest: bytes)
    requires LfFree(line)
    ensures Segments(line + [LF] + rest) == [line] + Segments(rest)
  {
    var b := line + [LF] + rest;
    assert b[|line|] == LF;
    assert IndexOfLf(b, 0) == |line|;
    assert b[..|line|] == line && b[|line| + 1..] == rest;
  }

  /** Bytes without a newline form no line. */
  lemma SegmentsLfFree(b: bytes)
    requires LfFree(b)
    ensures Segments(b) == []
  {}

  /** A non-empty clean buffer is a first line and a clean rest. */
  lemma FirstLine(a: bytes) returns (line: bytes, rest: bytes)
    requires Clean(a) && a != []
    ensures LfFree(line) && Clean(rest)
    ensures a == line + [LF] + rest
  {
    assert a[|a| - 1] == LF;
    var i := IndexOfLf(a, 0);
    line, rest := a[..i], a[i + 1..];
    if rest == [] {
      CompleteLenIs(rest, 0);
    } else {
      assert rest[|rest| - 1] == LF;
      CompleteLenIs(rest, |rest|);
    }
  }

  /** Splitting distributes over a cut at a line boundary. */
  lemma {:induction false} SegmentsAppend(a: bytes, b: bytes)
    requires Clean(a)
    ensures Segments(a + b) == Segments(a) + Segments(b)
    decreases |a|
  {
    if a == [] {
      assert a + b == b;
    } else {
      var line, rest := FirstLine(a);
      SegmentsAppend(rest, b);
      SegmentsCons(line, rest);
      SegmentsCons(line, rest + b);
      Assoc(line + [LF], rest, b);
      Assoc([line], Segments(rest), Segments(b));
    }
  }

  /** Only the complete part of a buffer holds lines. */
  lemma SegmentsOfComplete(b: bytes)
    ensures Clean(b[..CompleteLen(b)])
    ensures Segments(b) == Segments(b[..CompleteLen(b)])
  {
    var n := CompleteLen(b);
    var a, t := b[..n], b[n..];
    CompleteLenIs(a, n);
    assert b == a + t;
    assert LfFree(t);
    SegmentsLfFree(t);
    SegmentsAppend(a, t);
  }

  /** The lines of a buffer are exactly its complete bytes: nothing is lost, added or reordered. */
  lemma {:induction false} JoinSegments(b: bytes)
    ensures Join(Segments(b)) == b[..CompleteLen(b)]
  {
    SegmentsOfComplete(b);
    JoinSegmentsClean(b[..CompleteLen(b)]);
  }

  lemma {:induction false} JoinSegmentsClean(a: bytes)
    requires Clean(a)
    ensures Join(Segments(a)) == a
    decreases |a|
  {
    if a == [] {
      SegmentsLfFree(a);
    } else {
      var line, rest := FirstLine(a);
      JoinSegmentsClean(rest);
      SegmentsCons(line, rest);
      assert ([line] + Segments(rest))[1..] == Segments(rest);
    }
  }
}
