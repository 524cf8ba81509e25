/** Texts under a variable-length code whose code words take one to four bytes and are never
    a prefix of one another. UTF-8 is the code in use; nothing here looks inside a word. */
module PrefixCode {
  import opened Wrappers

  type Byte = b: int | 0 <= b < 256

  /** One position of a Python `str`: surrogates can occur there, and cannot be encoded. */
  type CodePoint = c: int | 0 <= c < 0x110000

  predicate IsSurrogate(c: int) { 0xD800 <= c < 0xE000 }

  type Scalar = c: CodePoint | !IsSurrogate(c)

  /** `first` reads the code word at the front of a byte string and tells how long it is. */
  datatype Code = Code(word: Scalar -> seq<Byte>, first: seq<Byte> -> Option<(Scalar, nat)>) {
    ghost predicate Lawful() {
      && (forall c: Scalar :: 1 <= |word(c)| <= 4)
      && (forall c: Scalar, rest: seq<Byte> :: first(word(c) + rest) == Some((c, |word(c)|)))
      && (forall c: Scalar, k: int :: 0 < k < |word(c)| ==> first(word(c)[..k]) == None)
      && (forall b: seq<Byte> :: first(b).Some? ==> var (c, n) := first(b).value; n == |word(c)| && word(c) <= b)
    }
  }

  function Encode(code: Code, s: seq<Scalar>): seq<Byte> {
    if s == [] then [] else code.word(s[0]) + Encode(code, s[1..])
  }

  /** A strict decoder: None as soon as no code word stands at the front. */
  function Decode(code: Code, b: seq<Byte>): Option<seq<Scalar>>
    decreases |b|
  {
    if b == [] then Some([])
    else
      match code.first(b)
      case None => None
      case Some((c, n)) =>
        if n == 0 || n > |b| then None
        else
          match Decode(code, b[n..])
          case None => None
          case Some(rest) => Some([c] + rest)
  }

  lemma {:induction false} DecodeEncode(code: Code, s: seq<Scalar>)
    requires code.Lawful()
    ensures Decode(code, Encode(code, s)) == Some(s)
  {
    if s != [] {
      var w := code.word(s[0]);
      assert code.first(w + Encode(code, s[1..])) == Some((s[0], |w|));
      assert Encode(code, s)[|w|..] == Encode(code, s[1..]);
      DecodeEncode(code, s[1..]);
      assert s == [s[0]] + s[1..];
    }
  }

  /** The decoder accepts nothing but encodings. */
  lemma {:induction false} EncodeDecode(code: Code, b: seq<Byte>)
    requires code.Lawful() && Decode(code, b).Some?
    ensures Encode(code, Decode(code, b).value) == b
    decreases |b|
  {
    if b != [] {
      var (c, n) := code.first(b).value;
      EncodeDecode(code, b[n..]);
      assert Decode(code, b).value[1..] == Decode(code, b[n..]).value;
    }
  }

  lemma {:induction false} EncodeConcat(code: Code, s: seq<Scalar>, t: seq<Scalar>)
    ensures Encode(code, s + t) == Encode(code, s) + Encode(code, t)
  {
    if s == [] {
      assert s + t == t;
    } else {
      assert (s + t)[1..] == s[1..] + t;
      EncodeConcat(code, s[1..], t);
    }
  }

  lemma EncodeSplit(code: Code, s: seq<Scalar>, k: nat)
    requires k <= |s|
    ensures Encode(code, s) == Encode(code, s[..k]) + Encode(code, s[k..])
  {
    EncodeConcat(code, s[..k], s[k..]);
    assert s == s[..k] + s[k..];
  }

  /** How many leading elements of `s` fit in `limit` bytes. */
  function Fit(code: Code, s: seq<Scalar>, limit: nat): (k: nat)
    ensures k <= |s|
  {
    if s == [] || |code.word(s[0])| > limit then 0
    else 1 + Fit(code, s[1..], limit - |code.word(s[0])|)
  }

  lemma {:induction false} FitIsGreatest(code: Code, s: seq<Scalar>, limit: nat)
    requires code.Lawful()
    ensures |Encode(code, s[..Fit(code, s, limit)])| <= limit
    ensures Fit(code, s, limit) < |s| ==> limit < |Encode(code, s[..Fit(code, s, limit)])| + 4
    ensures limit < |Encode(code, s)| <==> Fit(code, s, limit) < |s|
    ensures 4 <= limit && s != [] ==> Fit(code, s, limit) > 0
  {
    var k := Fit(code, s, limit);
    if s != [] && |code.word(s[0])| <= limit {
      FitIsGreatest(code, s[1..], limit - |code.word(s[0])|);
      assert s[..k][1..] == s[1..][..k - 1];
    }
  }

  lemma {:induction false} FitMonotone(code: Code, s: seq<Scalar>, low: nat, high: nat)
    requires low <= high
    ensures Fit(code, s, low) <= Fit(code, s, high)
    ensures |Encode(code, s[..Fit(code, s, high)])| <= low ==> Fit(code, s, low) == Fit(code, s, high)
  {
    if s != [] && |code.word(s[0])| <= low {
      FitMonotone(code, s[1..], low - |code.word(s[0])|, high - |code.word(s[0])|);
      var k := Fit(code, s, high);
      assert s[..k][1..] == s[1..][..k - 1];
    } else if s != [] && Fit(code, s, high) > 0 {
      var k := Fit(code, s, high);
      assert Encode(code, s[..k]) == code.word(s[0]) + Encode(code, s[..k][1..]);
    }
  }

  /** A prefix of an encoding decodes exactly when it stops between two code words. */
  lemma {:induction false} PrefixDecodesAtBoundary(code: Code, s: seq<Scalar>, m: nat)
    requires code.Lawful() && m <= |Encode(code, s)|
    ensures Decode(code, Encode(code, s)[..m]).Some? <==> |Encode(code, s[..Fit(code, s, m)])| == m
  {
    if m > 0 {
      var w := code.word(s[0]);
      var p := Encode(code, s)[..m];
      if m < |w| {
        assert p == w[..m];
      } else {
        var k := Fit(code, s, m);
        var q := Encode(code, s[1..])[..m - |w|];
        assert p == w + q;
        assert code.first(w + q) == Some((s[0], |w|));
        assert p[|w|..] == q;
        PrefixDecodesAtBoundary(code, s[1..], m - |w|);
        assert s[..k][1..] == s[1..][..k - 1];
      }
    }
  }
}
