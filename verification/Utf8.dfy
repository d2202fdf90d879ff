/** Cutting text at a byte limit without cutting a character
    (`truncateUtf8Bytes` in `src/host/tools/harness.ts`, `boundTail` in
    `src/host/watcher/compact_summary.ts`). Well-formedness is that of sections 3 and 4 of RFC 3629. */
module Utf8 {
  import opened Prelude
  import opened Lines

  predicate IsContinuation(b: byte) {
    0x80 <= b <= 0xBF
  }

  /** The byte sequences that encode one character (section 4 of RFC 3629). */
  predicate IsChar(b: bytes) {
    || (|b| == 1 && b[0] <= 0x7F)
    || (|b| == 2 && 0xC2 <= b[0] <= 0xDF && IsContinuation(b[1]))
    || (|b| == 3 && IsContinuation(b[1]) && IsContinuation(b[2]) && (
          || (b[0] == 0xE0 && 0xA0 <= b[1])
          || (0xE1 <= b[0] <= 0xEC)
          || (b[0] == 0xED && b[1] <= 0x9F)
          || (0xEE <= b[0] <= 0xEF)))
    || (|b| == 4 && IsContinuation(b[1]) && IsContinuation(b[2]) && IsContinuation(b[3]) && (
          || (b[0] == 0xF0 && 0x90 <= b[1])
          || (0xF1 <= b[0] <= 0xF3)
          || (b[0] == 0xF4 && b[1] <= 0x8F)))
  }

  /** A concatenation of encoded characters. */
  ghost predicate IsUtf8(b: bytes) {
    b == [] || exists n: nat :: Peels(b, n)
  }

  /** The first `n` bytes are a character and the others are well-formed text. */
  ghost predicate Peels(b: bytes, n: nat) {
    1 <= n <= 4 && n <= |b| && IsChar(b[..n]) && IsUtf8(b[n..])
  }

  /** The length of the character a lead byte announces. */
  function CharLen(lead: byte): (n: nat)
    ensures 1 <= n <= 4
  {
    if lead <= 0x7F then 1 else if lead <= 0xDF then 2 else if lead <= 0xEF then 3 else 4
  }

  /** A character is as long as its lead byte announces and has no other lead byte. */
  lemma CharShape(c: bytes)
    requires IsChar(c)
    ensures |c| == CharLen(c[0]) && !IsContinuation(c[0])
    ensures forall i :: 1 <= i < |c| ==> IsContinuation(c[i])
  {}

  /** Well-formed text is its first character and well-formed text. */
  lemma FirstChar(b: bytes) returns (c: bytes, rest: bytes)
    requires IsUtf8(b) && b != []
    ensures b == c + rest && IsChar(c) && IsUtf8(rest) && |c| <= 4
  {
    var n: nat :| Peels(b, n);
    c, rest := b[..n], b[n..];
  }

  lemma PutFirst(c: bytes, rest: bytes)
    requires IsChar(c) && IsUtf8(rest)
    ensures IsUtf8(c + rest)
  {
    var b := c + rest;
    assert b[..|c|] == c && b[|c|..] == rest;
    assert Peels(b, |c|);
  }

  /** The first character of well-formed text is determined by the text. */
  lemma PeelFirst(c: bytes, rest: bytes)
    requires IsChar(c) && IsUtf8(c + rest)
    ensures IsUtf8(rest)
  {
    var d, tail := FirstChar(c + rest);
    CharShape(c);
    CharShape(d);
    assert (c + rest)[0] == c[0] && (d + tail)[0] == d[0];
    assert rest == (c + rest)[|c|..] && tail == (d + tail)[|d|..];
  }

  /** `i` lies between two characters: at an end of the text or at a lead byte. */
  predicate AtBoundary(b: bytes, i: nat) {
    i <= |b| && (i < |b| ==> !IsContinuation(b[i]))
  }

  /** Well-formed text can be cut exactly at its boundaries: both parts are then well-formed,
      and at every other point neither is. */
  lemma {:induction false} CutIsValidIff(b: bytes, i: nat)
    requires IsUtf8(b) && i <= |b|
    ensures AtBoundary(b, i) ==> IsUtf8(b[..i]) && IsUtf8(b[i..])
    ensures !AtBoundary(b, i) ==> !IsUtf8(b[..i]) && !IsUtf8(b[i..])
    decreases |b|
  {
    if i == 0 {
      assert b[0..] == b && b[..0] == [];
      if b != [] { NoLeadingContinuation(b); }
    } else {
      var c, rest := FirstChar(b);
      CharShape(c);
      if i < |c| {
        CutInsideChar(b, c, rest, i);
      } else {
        CutIsValidIff(rest, i - |c|);
        CutAfterChar(b, c, rest, i - |c|);
      }
    }
  }

  lemma CutAfterChar(b: bytes, c: bytes, rest: bytes, k: nat)
    requires b == c + rest && IsChar(c) && k <= |rest|
    ensures AtBoundary(b, |c| + k) <==> AtBoundary(rest, k)
    ensures IsUtf8(b[..|c| + k]) <==> IsUtf8(rest[..k])
    ensures b[|c| + k..] == rest[k..]
  {
    var front := rest[..k];
    assert b[..|c| + k] == c + front;
    assert b[|c| + k..] == rest[k..];
    if IsUtf8(front) { PutFirst(c, front); }
    if IsUtf8(c + front) { PeelFirst(c, front); }
  }

  lemma SameHead(d: bytes, tail: bytes, b: bytes)
    requires d != [] && b == d + tail
    ensures b[0] == d[0]
  {}

  lemma CutInsideChar(b: bytes, c: bytes, rest: bytes, i: nat)
    requires b == c + rest && IsChar(c) && 0 < i < |c|
    ensures !AtBoundary(b, i) && !IsUtf8(b[..i]) && !IsUtf8(b[i..])
  {
    CharShape(c);
    assert b[i] == c[i];
    if IsUtf8(b[i..]) { NoLeadingContinuation(b[i..]); }
    if IsUtf8(b[..i]) {
      var d, tail := FirstChar(b[..i]);
      CharShape(d);
      SameHead(d, tail, b[..i]);
      assert false;
    }
  }

  lemma NoLeadingContinuation(b: bytes)
    requires b != [] && IsUtf8(b)
    ensures !IsContinuation(b[0])
  {
    var c, rest := FirstChar(b);
    CharShape(c);
  }

  lemma BoundaryShift(b: bytes, c: bytes, rest: bytes, k: nat)
    requires b == c + rest && AtBoundary(rest, k)
    ensures AtBoundary(b, |c| + k)
  {}

  /** A boundary is never more than three bytes away in either direction. */
  lemma {:induction false} BoundaryNearby(b: bytes, i: nat) returns (lo: nat, hi: nat)
    requires IsUtf8(b) && i <= |b|
    ensures i - 3 <= lo <= i && AtBoundary(b, lo)
    ensures i <= hi <= i + 3 && AtBoundary(b, hi)
    decreases |b|
  {
    if i == 0 || i == |b| {
      lo, hi := i, i;
      if i < |b| { NoLeadingContinuation(b); }
    } else {
      var c, rest := FirstChar(b);
      CharShape(c);
      if i < |c| {
        lo, hi := 0, |c|;
        if rest != [] { NoLeadingContinuation(rest); }
        NoLeadingContinuation(b);
        BoundaryShift(b, c, rest, 0);
      } else {
        lo, hi := BoundaryNearby(rest, i - |c|);
        BoundaryShift(b, c, rest, lo);
        BoundaryShift(b, c, rest, hi);
        lo, hi := lo + |c|, hi + |c|;
      }
    }
  }

  /** The result is the longest well-formed prefix within the limit, and at most three bytes are
      lost to the limit. The buffer is the UTF-8 encoding of a string, hence well-formed. */
  method TruncateUtf8Bytes(buf: bytes, maxBytes: nat) returns (r: bytes)
    requires IsUtf8(buf)
    ensures r <= buf && IsUtf8(r)
    ensures |buf| <= maxBytes ==> r == buf
    ensures |buf| > maxBytes ==> maxBytes - 3 <= |r| <= maxBytes
    ensures forall n :: |r| < n <= maxBytes && n <= |buf| ==> !IsUtf8(buf[..n])
  {
    if |buf| <= maxBytes {
      return buf;
    }
    var end := maxBytes;
    ghost var lo, _ := BoundaryNearby(buf, maxBytes);
    while end > 0 && IsContinuation(buf[end])
      invariant lo <= end <= maxBytes
      invariant forall n :: end < n <= maxBytes ==> IsContinuation(buf[n])
    {
      end := end - 1;
    }
    if end == 0 { NoLeadingContinuation(buf); }
    CutIsValidIff(buf, end);
    forall n | end < n <= maxBytes ensures !IsUtf8(buf[..n]) { CutIsValidIff(buf, n); }
    r := buf[..end];
  }

  /** The part of the text that `boundTail` keeps behind its marker: the longest well-formed suffix
      within the limit, again at most three bytes short of it. */
  method BoundTail(full: bytes, maxBytes: nat) returns (tail: bytes, dropped: nat)
    requires IsUtf8(full)
    ensures dropped <= |full| && tail == full[dropped..] && IsUtf8(tail)
    ensures |full| <= maxBytes ==> dropped == 0
    ensures |full| > maxBytes ==> maxBytes - 3 <= |tail| <= maxBytes
    ensures forall d :: |full| - maxBytes <= d < dropped && 0 <= d ==> !IsUtf8(full[d..])
  {
    if |full| <= maxBytes {
      assert full[0..] == full;
      return full, 0;
    }
    var start := |full| - maxBytes;
    ghost var _, hi := BoundaryNearby(full, start);
    while start < |full| && IsContinuation(full[start])
      invariant |full| - maxBytes <= start <= hi
      invariant forall d :: |full| - maxBytes <= d < start ==> IsContinuation(full[d])
    {
      start := start + 1;
    }
    CutIsValidIff(full, start);
    forall d | |full| - maxBytes <= d < start ensures !IsUtf8(full[d..]) { CutIsValidIff(full, d); }
    return full[start..], start;
  }
}
