/** Base 64 (sections 4 and 5 of RFC 4648) as the continuation tokens use it: padding is
    stripped after encoding and restored before decoding. */
module Base64Url {
  import opened Wrappers
  import opened PrefixCode

  type Sextet = v: int | 0 <= v < 64

  datatype Alphabet = Standard | UrlSafe

  function ToChar(v: Sextet, a: Alphabet): char {
    if v < 26 then 'A' + v as char
    else if v < 52 then 'a' + (v - 26) as char
    else if v < 62 then '0' + (v - 52) as char
    else if a == Standard then (if v == 62 then '+' else '/')
    else (if v == 62 then '-' else '_')
  }

  /** The library translates `-_` to `+/` first, so the standard characters stay legal
      in a token. */
  function FromChar(c: char, a: Alphabet): Option<Sextet> {
    if 'A' <= c <= 'Z' then Some(c as int - 'A' as int)
    else if 'a' <= c <= 'z' then Some(c as int - 'a' as int + 26)
    else if '0' <= c <= '9' then Some(c as int - '0' as int + 52)
    else if c == '+' || (a == UrlSafe && c == '-') then Some(62)
    else if c == '/' || (a == UrlSafe && c == '_') then Some(63)
    else None
  }

  lemma CharRoundTrip(v: Sextet, a: Alphabet)
    ensures FromChar(ToChar(v, a), a) == Some(v) && ToChar(v, a) != '='
  {
  }

  /** Three bytes make four six-bit groups; a shorter tail is filled up with zero bits. */
  function Sextets(b: seq<Byte>): (v: seq<Sextet>)
    ensures |v| % 4 != 1
    decreases |b|
  {
    if |b| == 0 then []
    else if |b| == 1 then [b[0] / 4, b[0] % 4 * 16]
    else if |b| == 2 then [b[0] / 4, b[0] % 4 * 16 + b[1] / 16, b[1] % 16 * 4]
    else [b[0] / 4, b[0] % 4 * 16 + b[1] / 16, b[1] % 16 * 4 + b[2] / 64, b[2] % 64] + Sextets(b[3..])
  }

  function FirstByte(x: Sextet, y: Sextet): Byte { x * 4 + y / 16 }

  function SecondByte(y: Sextet, z: Sextet): Byte { y % 16 * 16 + z / 4 }

  function ThirdByte(z: Sextet, w: Sextet): Byte { z % 4 * 64 + w }

  function FromSextets(v: seq<Sextet>): Option<seq<Byte>>
    decreases |v|
  {
    match |v|
    case 0 => Some([])
    case 1 => None
    case 2 => Some([FirstByte(v[0], v[1])])
    case 3 => Some([FirstByte(v[0], v[1]), SecondByte(v[1], v[2])])
    case _ =>
      match FromSextets(v[4..])
      case None => None
      case Some(rest) =>
        Some([FirstByte(v[0], v[1]), SecondByte(v[1], v[2]), ThirdByte(v[2], v[3])] + rest)
  }

  function Chars(v: seq<Sextet>, a: Alphabet): string {
    seq(|v|, i requires 0 <= i < |v| => ToChar(v[i], a))
  }

  function Digits(t: string, a: Alphabet): Option<seq<Sextet>> {
    if forall i :: 0 <= i < |t| ==> FromChar(t[i], a).Some?
    then Some(seq(|t|, i requires 0 <= i < |t| => FromChar(t[i], a).value))
    else None
  }

  /** `"=" * (-n % 4)`. */
  function Padding(n: nat): string { seq((4 - n % 4) % 4, _ => '=') }

  /** `b64encode`, padding included. */
  function Encode(b: seq<Byte>, a: Alphabet): string {
    Chars(Sextets(b), a) + Padding(|Sextets(b)|)
  }

  function DropPadding(t: string): string {
    if |t| > 1 && t[|t| - 2..] == "==" then t[..|t| - 2]
    else if |t| > 0 && t[|t| - 1] == '=' then t[..|t| - 1]
    else t
  }

  /** `b64decode(..., validate=True)`: whole groups of four characters, and `=` nowhere but
      in the last two places. */
  function Decode(t: string, a: Alphabet): Option<seq<Byte>> {
    if |t| % 4 != 0 then None
    else
      match Digits(DropPadding(t), a)
      case None => None
      case Some(v) => FromSextets(v)
  }

  lemma SextetsRejoin(b0: Byte, b1: Byte, b2: Byte)
    ensures FirstByte(b0 / 4, b0 % 4 * 16 + b1 / 16) == b0
    ensures SecondByte(b0 % 4 * 16 + b1 / 16, b1 % 16 * 4 + b2 / 64) == b1
    ensures ThirdByte(b1 % 16 * 4 + b2 / 64, b2 % 64) == b2
  {
    assert (b0 % 4 * 16 + b1 / 16) / 16 == b0 % 4 && (b0 % 4 * 16 + b1 / 16) % 16 == b1 / 16;
    assert (b1 % 16 * 4 + b2 / 64) / 4 == b1 % 16 && (b1 % 16 * 4 + b2 / 64) % 4 == b2 / 64;
  }

  lemma OneInverts(b0: Byte)
    ensures FromSextets([b0 / 4, b0 % 4 * 16]) == Some([b0])
  {
    var v: seq<Sextet> := [b0 / 4, b0 % 4 * 16];
    SextetsRejoin(b0, 0, 0);
    assert |v| == 2;
  }

  lemma TwoInvert(b0: Byte, b1: Byte)
    ensures FromSextets([b0 / 4, b0 % 4 * 16 + b1 / 16, b1 % 16 * 4]) == Some([b0, b1])
  {
    var v: seq<Sextet> := [b0 / 4, b0 % 4 * 16 + b1 / 16, b1 % 16 * 4];
    SextetsRejoin(b0, b1, 0);
    assert |v| == 3;
  }

  /** Three bytes in front of the rest. */
  lemma GroupInverts(b0: Byte, b1: Byte, b2: Byte, v: seq<Sextet>, rest: seq<Byte>)
    requires |v| % 4 != 1 && FromSextets(v) == Some(rest)
    ensures FromSextets([b0 / 4, b0 % 4 * 16 + b1 / 16, b1 % 16 * 4 + b2 / 64, b2 % 64] + v) == Some([b0, b1, b2] + rest)
  {
    var all: seq<Sextet> := [b0 / 4, b0 % 4 * 16 + b1 / 16, b1 % 16 * 4 + b2 / 64, b2 % 64] + v;
    SextetsRejoin(b0, b1, b2);
    assert all[4..] == v;
  }

  lemma {:induction false} FromSextetsInverts(b: seq<Byte>)
    ensures FromSextets(Sextets(b)) == Some(b)
    decreases |b|
  {
    if b == [] {
    } else if |b| == 1 {
      OneInverts(b[0]);
      assert b == [b[0]];
    } else if |b| == 2 {
      TwoInvert(b[0], b[1]);
      assert b == [b[0], b[1]];
    } else {
      FromSextetsInverts(b[3..]);
      GroupInverts(b[0], b[1], b[2], Sextets(b[3..]), b[3..]);
      assert b == [b[0], b[1], b[2]] + b[3..];
    }
  }

  /** What the alphabets are (tables 1 and 2 of RFC 4648): capitals, small letters, digits, and two
      signs each. */
  lemma AlphabetIs(v: Sextet, a: Alphabet)
    ensures ToChar(v, a) as int
         == if v < 26 then 65 + v
            else if v < 52 then 97 + (v - 26)
            else if v < 62 then 48 + (v - 52)
            else match a case Standard => (if v == 62 then 43 else 47) case UrlSafe => (if v == 62 then 45 else 95)
  {
  }

  /** Test vectors of section 10 of RFC 4648. */
  lemma Rfc4648Vectors()
    ensures Encode([102], Standard) == "Zg==" && Encode([102, 111], Standard) == "Zm8="
    ensures Encode([102, 111, 111], Standard) == "Zm9v"
  {
    assert Sextets([102]) == [25, 32] && Sextets([102, 111]) == [25, 38, 60];
    assert Sextets([102, 111, 111]) == [25, 38, 61, 47] + Sextets([]);
  }

  lemma DigitsOfChars(v: seq<Sextet>, a: Alphabet)
    ensures Digits(Chars(v, a), a) == Some(v)
    ensures Chars(v, a) != "" ==> Chars(v, a)[|v| - 1] != '='
    ensures |v| > 1 ==> Chars(v, a)[|v| - 2] != '='
  {
    forall i | 0 <= i < |v|
      ensures FromChar(ToChar(v[i], a), a) == Some(v[i]) && ToChar(v[i], a) != '='
    {
      CharRoundTrip(v[i], a);
    }
    var d := Digits(Chars(v, a), a);
    assert d.Some? && d.value == v;
  }

  lemma PaddingFills(n: nat)
    ensures (n + |Padding(n)|) % 4 == 0
    ensures n % 4 == 0 ==> Padding(n) == ""
    ensures n % 4 == 2 ==> Padding(n) == "=="
    ensures n % 4 == 3 ==> Padding(n) == "="
  {
  }

  lemma DropPaddingOf(t: string)
    requires |t| % 4 != 1 && (t != "" ==> t[|t| - 1] != '=')
    ensures DropPadding(t + Padding(|t|)) == t && |t + Padding(|t|)| % 4 == 0
  {
    PaddingFills(|t|);
    var padding := Padding(|t|);
    if |t| % 4 == 2 {
      DropTwo(t);
    } else if |t| % 4 == 3 {
      DropOne(t);
    } else {
      assert padding == "" && t + "" == t;
    }
  }

  lemma DropTwo(t: string)
    ensures DropPadding(t + "==") == t
  {
    var p := t + "==";
    assert p[|p| - 2..] == "==" && p[..|p| - 2] == t;
  }

  lemma DropOne(t: string)
    requires t != "" && t[|t| - 1] != '='
    ensures DropPadding(t + "=") == t
  {
    var p := t + "=";
    assert p[..|p| - 1] == t && p[|p| - 2] == t[|t| - 1] && p[|p| - 2..][0] == p[|p| - 2];
  }

  lemma DecodeInvertsEncode(b: seq<Byte>, a: Alphabet)
    ensures Decode(Encode(b, a), a) == Some(b)
  {
    DigitsOfChars(Sextets(b), a);
    DropPaddingOf(Chars(Sextets(b), a));
    FromSextetsInverts(b);
  }

  /** `str.rstrip("=")`. */
  function StripPadding(t: string): string {
    if t == "" || t[|t| - 1] != '=' then t else StripPadding(t[..|t| - 1])
  }

  lemma {:induction false} StripPaddingOf(t: string, pads: nat)
    requires t == "" || t[|t| - 1] != '='
    ensures StripPadding(t + seq(pads, _ => '=')) == t
  {
    var p := t + seq(pads, _ => '=');
    if pads == 0 {
      assert p == t;
    } else {
      assert p[..|p| - 1] == t + seq(pads - 1, _ => '=');
      StripPaddingOf(t, pads - 1);
    }
  }

  /** Stripping the padding loses nothing: the length alone tells how much to restore. */
  lemma PaddingRestored(b: seq<Byte>, a: Alphabet)
    ensures var t := StripPadding(Encode(b, a)); t + Padding(|t|) == Encode(b, a)
  {
    var t := Chars(Sextets(b), a);
    DigitsOfChars(Sextets(b), a);
    StripPaddingOf(t, |Padding(|t|)|);
    assert t + Padding(|t|) == t + seq(|Padding(|t|)|, _ => '=');
  }
}
