/** The well-formed byte sequences are exactly the encodings of text (section 3 of RFC 3629). */
module Rfc3629 {
  import opened Prelude
  import opened Lines
  import opened Utf8

  /** A character number, surrogates excluded. */
  type Scalar = c: nat | c <= 0xD7FF || 0xE000 <= c <= 0x10FFFF

  function Tail(c: nat): byte {
    (0x80 + c % 0x40) as byte
  }

  function Encode(c: Scalar): bytes {
    if c < 0x80 then [c as byte]
    else if c < 0x800 then [(0xC0 + c / 0x40) as byte, Tail(c)]
    else if c < 0x10000 then [(0xE0 + c / 0x1000) as byte, Tail(c / 0x40), Tail(c)]
    else
      assert c / 0x40000 <= 4;
      [(0xF0 + c / 0x40000) as byte, Tail(c / 0x1000), Tail(c / 0x40), Tail(c)]
  }

  function EncodeAll(text: seq<Scalar>): bytes {
    if text == [] then [] else Encode(text[0]) + EncodeAll(text[1..])
  }

  // ---- every encoding is well-formed ----

  lemma ThreeBytes(c: Scalar)
    requires 0x800 <= c < 0x10000
    ensures IsChar(Encode(c))
  {
    var lead, second := 0xE0 + c / 0x1000, 0x80 + c / 0x40 % 0x40;
    assert c / 0x1000 == c / 0x40 / 0x40;
    assert Encode(c)[0] as int == lead && Encode(c)[1] as int == second;
    assert lead == 0xE0 ==> 0xA0 <= second;
    assert lead == 0xED ==> second <= 0x9F;
    assert 0xE0 <= lead <= 0xEF;
    assert IsContinuation(Encode(c)[1]) && IsContinuation(Encode(c)[2]);
  }

  lemma FourBytes(c: Scalar)
    requires 0x10000 <= c
    ensures IsChar(Encode(c))
  {
    var lead, second := 0xF0 + c / 0x40000, 0x80 + c / 0x1000 % 0x40;
    assert c / 0x40000 == c / 0x1000 / 0x40;
    assert Encode(c)[0] as int == lead && Encode(c)[1] as int == second;
  }

  lemma EncodedIsChar(c: Scalar)
    ensures IsChar(Encode(c))
  {
    if 0x800 <= c < 0x10000 { ThreeBytes(c); }
    if 0x10000 <= c { FourBytes(c); }
  }

  lemma {:induction false} EncodedIsUtf8(text: seq<Scalar>)
    ensures IsUtf8(EncodeAll(text))
  {
    if text != [] {
      EncodedIsChar(text[0]);
      EncodedIsUtf8(text[1..]);
      PutFirst(Encode(text[0]), EncodeAll(text[1..]));
    }
  }

  // ---- and everything well-formed is an encoding ----

  function Low(b: byte): nat {
    b as nat % 0x40
  }

  lemma Digits(a: nat, b: nat)
    requires b < 0x40
    ensures (a * 0x40 + b) / 0x40 == a && (a * 0x40 + b) % 0x40 == b
  {}

  lemma TailIsLow(b: byte, c: nat)
    requires IsContinuation(b) && c % 0x40 == Low(b)
    ensures Tail(c) == b
  {
    assert b as nat == 0x80 + Low(b);
  }

  lemma DecodeTwo(b: bytes) returns (c: Scalar)
    requires IsChar(b) && |b| == 2
    ensures Encode(c) == b
  {
    var high := b[0] as nat - 0xC0;
    c := high * 0x40 + Low(b[1]);
    Digits(high, Low(b[1]));
    TailIsLow(b[1], c);
  }

  lemma DecodeThree(b: bytes) returns (c: Scalar)
    requires IsChar(b) && |b| == 3
    ensures Encode(c) == b
  {
    var high := b[0] as nat - 0xE0;
    var upper := high * 0x40 + Low(b[1]);
    var number := upper * 0x40 + Low(b[2]);
    Digits(high, Low(b[1]));
    Digits(upper, Low(b[2]));
    assert number / 0x1000 == number / 0x40 / 0x40;
    c := number;
    TailIsLow(b[1], c / 0x40);
    TailIsLow(b[2], c);
  }

  /** The base-64 digits of a number of four digits. */
  lemma FourDigits(high: nat, upper: nat, middle: nat, low: nat) returns (number: nat)
    requires upper < 0x40 && middle < 0x40 && low < 0x40
    ensures number == ((high * 0x40 + upper) * 0x40 + middle) * 0x40 + low
    ensures number / 0x40000 == high
    ensures number / 0x1000 % 0x40 == upper && number / 0x40 % 0x40 == middle && number % 0x40 == low
  {
    var two := high * 0x40 + upper;
    var three := two * 0x40 + middle;
    number := three * 0x40 + low;
    Digits(high, upper);
    Digits(two, middle);
    Digits(three, low);
    assert number / 0x1000 == number / 0x40 / 0x40;
    assert number / 0x40000 == number / 0x1000 / 0x40;
  }

  lemma DecodeFour(b: bytes) returns (c: Scalar)
    requires IsChar(b) && |b| == 4
    ensures Encode(c) == b
  {
    c := FourDigits(b[0] as nat - 0xF0, Low(b[1]), Low(b[2]), Low(b[3]));
    TailIsLow(b[1], c / 0x1000);
    TailIsLow(b[2], c / 0x40);
    TailIsLow(b[3], c);
  }

  lemma CharIsEncoded(b: bytes) returns (c: Scalar)
    requires IsChar(b)
    ensures Encode(c) == b
  {
    if |b| == 1 { c := b[0] as nat; }
    else if |b| == 2 { c := DecodeTwo(b); }
    else if |b| == 3 { c := DecodeThree(b); }
    else { c := DecodeFour(b); }
  }

  lemma {:induction false} Utf8IsEncoded(b: bytes) returns (text: seq<Scalar>)
    requires IsUtf8(b)
    ensures EncodeAll(text) == b
    decreases |b|
  {
    if b == [] {
      text := [];
    } else {
      var first, rest := FirstChar(b);
      var c := CharIsEncoded(first);
      var more := Utf8IsEncoded(rest);
      text := [c] + more;
      assert text[1..] == more;
    }
  }

  /** A byte sequence is well-formed if and only if it encodes some text. */
  lemma WellFormedIff(b: bytes)
    ensures IsUtf8(b) <==> exists text: seq<Scalar> :: EncodeAll(text) == b
  {
    if IsUtf8(b) {
      var text := Utf8IsEncoded(b);
    }
    if text: seq<Scalar> :| EncodeAll(text) == b { EncodedIsUtf8(text); }
  }
}
