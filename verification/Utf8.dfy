/** UTF-8 as defined by section 3 of RFC 3629: a scalar value takes one to four bytes, and
    a strict decoder refuses overlong forms, surrogates and anything above U+10FFFF. */
module Utf8 {
  import opened Wrappers
  import opened PrefixCode

  predicate IsContinuation(b: Byte) { 0x80 <= b < 0xC0 }

  /** Appends the six payload bits of a continuation byte. */
  function Extend(high: nat, b: Byte): nat
    requires IsContinuation(b)
  {
    high * 64 + (b - 0x80) as int
  }

  function EncodeOne(c: Scalar): (b: seq<Byte>)
    ensures 1 <= |b| <= 4
  {
    if c < 0x80 then [c]
    else if c < 0x800 then [0xC0 + c / 64, 0x80 + c % 64]
    else if c < 0x10000 then [0xE0 + c / 64 / 64, 0x80 + c / 64 % 64, 0x80 + c % 64]
    else [0xF0 + c / 64 / 64 / 64, 0x80 + c / 64 / 64 % 64, 0x80 + c / 64 % 64, 0x80 + c % 64]
  }

  /** The scalar value at the front of `b`, if a well-formed encoding stands there. */
  function DecodeFirst(b: seq<Byte>): (r: Option<Scalar>)
    ensures r.Some? ==> |EncodeOne(r.value)| <= |b|
  {
    if b == [] then None
    else if b[0] < 0x80 then Some(b[0])
    else if b[0] < 0xC2 then None
    else if b[0] < 0xE0 then
      if |b| < 2 || !IsContinuation(b[1]) then None
      else Some(Extend((b[0] as int) - 0xC0, b[1]))
    else if b[0] < 0xF0 then
      if |b| < 3 || !IsContinuation(b[1]) || !IsContinuation(b[2]) then None
      else
        var c := Extend(Extend((b[0] as int) - 0xE0, b[1]), b[2]);
        if c < 0x800 || IsSurrogate(c) then None else Some(c)
    else if b[0] < 0xF5 then
      if |b| < 4 || !IsContinuation(b[1]) || !IsContinuation(b[2]) || !IsContinuation(b[3]) then None
      else
        var c := Extend(Extend(Extend((b[0] as int) - 0xF0, b[1]), b[2]), b[3]);
        if c < 0x10000 || c >= 0x110000 then None else Some(c)
    else None
  }

  lemma ExtendSplits(high: nat, b: Byte)
    requires IsContinuation(b)
    ensures Extend(high, b) / 64 == high && 0x80 + Extend(high, b) % 64 == b
  {
  }

  lemma DecodeFirstOfEncoding(c: Scalar, rest: seq<Byte>)
    ensures DecodeFirst(EncodeOne(c) + rest) == Some(c)
  {
    if c >= 0x80 {
      assert c == Extend(c / 64, 0x80 + c % 64);
      assert c / 64 == Extend(c / 64 / 64, 0x80 + c / 64 % 64);
      assert c / 64 / 64 == Extend(c / 64 / 64 / 64, 0x80 + c / 64 / 64 % 64);
    }
  }

  lemma EncodingOfDecodeFirst(b: seq<Byte>)
    requires DecodeFirst(b).Some?
    ensures var e := EncodeOne(DecodeFirst(b).value); e == b[..|e|]
  {
    if b[0] < 0x80 {
    } else if b[0] < 0xE0 {
      ExtendSplits(b[0] - 0xC0, b[1]);
    } else if b[0] < 0xF0 {
      var y := Extend(b[0] - 0xE0, b[1]);
      ExtendSplits(b[0] - 0xE0, b[1]);
      ExtendSplits(y, b[2]);
    } else {
      var z := Extend(b[0] - 0xF0, b[1]);
      var y := Extend(z, b[2]);
      ExtendSplits(b[0] - 0xF0, b[1]);
      ExtendSplits(z, b[2]);
      ExtendSplits(y, b[3]);
    }
  }

  /** No proper prefix of a scalar's encoding decodes. */
  lemma PrefixOfOneFails(c: Scalar, k: nat)
    requires 0 < k < |EncodeOne(c)|
    ensures DecodeFirst(EncodeOne(c)[..k]) == None
  {
    assert EncodeOne(c)[..k][0] == EncodeOne(c)[0];
  }

  /** UTF-8 as a prefix code. */
  const UTF8: Code := Code(
    (c: Scalar) => EncodeOne(c),
    (b: seq<Byte>) =>
      match DecodeFirst(b) case None => None case Some(c) => Some((c, |EncodeOne(c)|)))

  /** The laws of RFC 3629 the rest of the development relies on: one to four bytes, no
      encoding a prefix of another, and only encodings are accepted. */
  lemma Utf8IsLawful()
    ensures UTF8.Lawful()
  {
    forall c: Scalar, rest: seq<Byte> ensures UTF8.first(UTF8.word(c) + rest) == Some((c, |UTF8.word(c)|)) {
      DecodeFirstOfEncoding(c, rest);
    }
    forall c: Scalar, k: int | 0 < k < |UTF8.word(c)| ensures UTF8.first(UTF8.word(c)[..k]) == None {
      PrefixOfOneFails(c, k);
    }
    forall b: seq<Byte> | UTF8.first(b).Some?
      ensures var (c, n) := UTF8.first(b).value; n == |UTF8.word(c)| && UTF8.word(c) <= b
    {
      EncodingOfDecodeFirst(b);
    }
  }
}
