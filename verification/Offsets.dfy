/** Offset tokens of the PostgreSQL adapter: `v1:<offset>` in unpadded base64url. */
module Offsets {
  import opened Wrappers
  import opened PrefixCode
  import Base64Url
  import Numerals

  datatype TokenError = InvalidToken

  function ToScalars(s: string): seq<Scalar> { seq(|s|, i requires 0 <= i < |s| => s[i] as int) }

  function FromScalars(s: seq<Scalar>): string { seq(|s|, i requires 0 <= i < |s| => s[i] as char) }

  /** `encode_offset`. */
  function EncodeOffset(code: Code, offset: nat, limit: nat): string {
    Base64Url.StripPadding(Base64Url.Encode(Encode(code, ToScalars("v1:" + Numerals.Text(offset + limit))), Base64Url.UrlSafe))
  }

  function FirstColon(t: string): (i: nat)
    ensures i <= |t| && (i < |t| ==> t[i] == ':') && forall j :: 0 <= j < i ==> t[j] != ':'
  {
    if t == "" || t[0] == ':' then 0 else 1 + FirstColon(t[1..])
  }

  /** What `int` makes of a text is the library's business, as long as it reads numerals. */
  ghost predicate ReadsNumerals(parse: string -> Option<int>) {
    forall n: nat :: parse(Numerals.Text(n)) == Some(n)
  }

  /** `decode_offset`; `parse` is Python's `int`. */
  function DecodeOffset(code: Code, token: Option<string>, parse: string -> Option<int>): Result<nat, TokenError> {
    if token.None? then Success(0)
    else
      match Base64Url.Decode(token.value + Base64Url.Padding(|token.value|), Base64Url.UrlSafe)
      case None => Failure(InvalidToken)
      case Some(raw) =>
        match Decode(code, raw)
        case None => Failure(InvalidToken)
        case Some(s) =>
          var t := FromScalars(s);
          var i := FirstColon(t);
          if i == |t| then Failure(InvalidToken)
          else
            match parse(t[i + 1..])
            case None => Failure(InvalidToken)
            case Some(n) => if t[..i] != "v1" || n < 0 then Failure(InvalidToken) else Success(n)
  }

  /** The pair of functions a paging loop relies on. */
  datatype Codec = Codec(encode: (nat, nat) -> string, decode: Option<string> -> Result<nat, TokenError>) {
    /** No token is the start; a token leads to the page after the one it was issued with. */
    ghost predicate Lawful() {
      decode(None) == Success(0) && forall offset: nat, limit: nat :: decode(Some(encode(offset, limit))) == Success(offset + limit)
    }
  }

  function PostgresCodec(code: Code, parse: string -> Option<int>): Codec {
    Codec((offset: nat, limit: nat) => EncodeOffset(code, offset, limit), token => DecodeOffset(code, token, parse))
  }

  lemma PostgresCodecIsLawful(code: Code, parse: string -> Option<int>)
    requires code.Lawful() && ReadsNumerals(parse)
    ensures PostgresCodec(code, parse).Lawful()
  {
    forall offset: nat, limit: nat
      ensures DecodeOffset(code, Some(EncodeOffset(code, offset, limit)), parse) == Success(offset + limit)
    {
      OffsetRoundTrip(code, offset, limit, parse);
    }
  }

  lemma PrefixColon(n: string)
    ensures var t := "v1:" + n; FirstColon(t) == 2 && t[3..] == n && t[..2] == "v1"
  {
    var t := "v1:" + n;
    assert t[0] == 'v' && t[1] == '1' && t[2] == ':';
  }

  /** What the text of a token says. */
  predicate Says(code: Code, token: string, t: string) {
    match Base64Url.Decode(token + Base64Url.Padding(|token|), Base64Url.UrlSafe)
    case None => false
    case Some(raw) => Decode(code, raw).Some? && FromScalars(Decode(code, raw).value) == t
  }

  /** Exactly the tokens that say `v1:` and a number are accepted. */
  lemma OffsetAcceptedIff(code: Code, token: string, parse: string -> Option<int>, n: nat)
    ensures DecodeOffset(code, Some(token), parse) == Success(n)
       <==> exists digits :: Says(code, token, "v1:" + digits) && parse(digits) == Some(n)
  {
    if DecodeOffset(code, Some(token), parse) == Success(n) {
      var raw := Base64Url.Decode(token + Base64Url.Padding(|token|), Base64Url.UrlSafe).value;
      var t := FromScalars(Decode(code, raw).value);
      assert t == "v1:" + t[3..];
      assert Says(code, token, "v1:" + t[3..]);
    }
    if digits :| Says(code, token, "v1:" + digits) && parse(digits) == Some(n) { PrefixColon(digits); }
  }

  /** A token decodes to the offset of the page after the one it was issued with. */
  lemma OffsetRoundTrip(code: Code, offset: nat, limit: nat, parse: string -> Option<int>)
    requires code.Lawful() && ReadsNumerals(parse)
    ensures DecodeOffset(code, Some(EncodeOffset(code, offset, limit)), parse) == Success(offset + limit)
  {
    var t := "v1:" + Numerals.Text(offset + limit);
    var raw := Encode(code, ToScalars(t));
    Base64Url.PaddingRestored(raw, Base64Url.UrlSafe);
    Base64Url.DecodeInvertsEncode(raw, Base64Url.UrlSafe);
    DecodeEncode(code, ToScalars(t));
    assert FromScalars(ToScalars(t)) == t;
    PrefixColon(Numerals.Text(offset + limit));
  }
}
