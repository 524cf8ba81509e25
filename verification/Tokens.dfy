/** Continuation tokens: a DynamoDB key, tagged so that decimals and bytes survive JSON, in a
    digest-protected envelope that also names the query it belongs to. */
module Tokens {
  import opened Wrappers
  import opened PrefixCode
  import opened Json
  import Base64Url

  const TOKEN_VERSION := 1
  const MAX_TOKEN_BYTES: nat := 16 * 1024

  /** Python values that can occur in a key. A `Decimal` is identified by its `str`; a
      dictionary with a key that is not a string counts as `Unsupported`. */
  datatype Value =
    | NoneValue
    | BoolValue(b: bool)
    | IntValue(i: int)
    | StrValue(s: string)
    | Dec(text: string)
    | Bytes(raw: seq<Byte>)
    | Dict(fields: map<string, Value>)
    | List(items: seq<Value>)
    | Tuple(elements: seq<Value>)
    | Unsupported

  datatype TokenError = InvalidToken | UnsupportedValue | TokenTooLarge

  /** The library functions the codec calls. `decimal` is `str(Decimal(text))`. */
  datatype Library = Library(
    dumps: Json -> seq<Byte>,
    loads: seq<Byte> -> Option<Json>,
    sha256: seq<Byte> -> string,
    decimal: string -> Option<string>)
  {
    ghost predicate Lawful() { forall j :: loads(dumps(j)) == Some(j) }
  }

  /** Every decimal in `v` is one: parsing its own text gives it back. */
  predicate Decimals(v: Value, lib: Library) {
    match v
    case Dec(text) => lib.decimal(text) == Some(text)
    case Dict(m) => forall k :: k in m ==> Decimals(m[k], lib)
    case List(items) => forall i :: 0 <= i < |items| ==> Decimals(items[i], lib)
    case Tuple(items) => forall i :: 0 <= i < |items| ==> Decimals(items[i], lib)
    case _ => true
  }

  function Tagged(tag: string, text: string): Json { Obj(map[tag := Str(text)]) }

  /** `_token_value`; None where it raises. */
  function TokenValue(v: Value): Option<Json> {
    match v
    case NoneValue => Some(Null)
    case BoolValue(b) => Some(Bool(b))
    case IntValue(i) => Some(Int(i))
    case StrValue(s) => Some(Str(s))
    case Dec(text) => Some(Tagged("$decimal", text))
    case Bytes(raw) => Some(Tagged("$binary", Base64Url.Encode(raw, Base64Url.Standard)))
    case Dict(m) =>
      if forall k :: k in m ==> TokenValue(m[k]).Some?
      then Some(Obj(map k | k in m :: TokenValue(m[k]).value))
      else None
    case List(items) =>
      if forall i :: 0 <= i < |items| ==> TokenValue(items[i]).Some?
      then Some(Arr(seq(|items|, i requires 0 <= i < |items| => TokenValue(items[i]).value)))
      else None
    case Tuple(items) =>
      if forall i :: 0 <= i < |items| ==> TokenValue(items[i]).Some?
      then Some(Arr(seq(|items|, i requires 0 <= i < |items| => TokenValue(items[i]).value)))
      else None
    case Unsupported => None
  }

  predicate IsTagged(m: map<string, Json>, tag: string) { m.Keys == {tag} && m[tag].Str? }

  /** `_untoken_value`; None where it raises. */
  function UntokenValue(j: Json, lib: Library): Option<Value> {
    match j
    case Null => Some(NoneValue)
    case Bool(b) => Some(BoolValue(b))
    case Int(i) => Some(IntValue(i))
    case Float(_) => None
    case Str(s) => Some(StrValue(s))
    case Arr(items) =>
      if forall i :: 0 <= i < |items| ==> UntokenValue(items[i], lib).Some?
      then Some(List(seq(|items|, i requires 0 <= i < |items| => UntokenValue(items[i], lib).value)))
      else None
    case Obj(m) =>
      if IsTagged(m, "$decimal") then
        match lib.decimal(m["$decimal"].s)
        case None => None
        case Some(text) => Some(Dec(text))
      else if IsTagged(m, "$binary") then
        match Base64Url.Decode(m["$binary"].s, Base64Url.Standard)
        case None => None
        case Some(raw) => Some(Bytes(raw))
      else if forall k :: k in m ==> UntokenValue(m[k], lib).Some?
      then Some(Dict(map k | k in m :: UntokenValue(m[k], lib).value))
      else None
  }

  /** A dictionary that the tagging cannot tell from a tagged decimal or byte string. */
  predicate LooksTagged(m: map<string, Value>) {
    || (m.Keys == {"$decimal"} && m["$decimal"].StrValue?)
    || (m.Keys == {"$binary"} && m["$binary"].StrValue?)
  }

  /** The keys a token represents exactly: no tuple, no dictionary that looks tagged. */
  predicate Faithful(v: Value) {
    match v
    case Dict(m) => !LooksTagged(m) && forall k :: k in m ==> Faithful(m[k])
    case List(items) => forall i :: 0 <= i < |items| ==> Faithful(items[i])
    case Tuple(_) => false
    case _ => true
  }

  lemma TokenValueIsStr(v: Value)
    requires TokenValue(v).Some?
    ensures TokenValue(v).value.Str? <==> v.StrValue?
  {
  }

  /** Tagging is undone exactly on the faithful values. */
  lemma {:induction false} ValueRoundTrip(v: Value, lib: Library)
    requires TokenValue(v).Some? && Decimals(v, lib)
    ensures UntokenValue(TokenValue(v).value, lib) == Some(v) <==> Faithful(v)
    decreases v, 1
  {
    var j := TokenValue(v).value;
    match v {
      case Dec(text) =>
        assert IsTagged(j.fields, "$decimal");
      case Bytes(raw) =>
        Base64Url.DecodeInvertsEncode(raw, Base64Url.Standard);
        assert IsTagged(j.fields, "$binary");
      case Dict(m) =>
        DictRoundTrip(v, lib);
      case List(items) =>
        forall i | 0 <= i < |items|
          ensures UntokenValue(j.items[i], lib) == Some(items[i]) <==> Faithful(items[i])
        {
          ValueRoundTrip(items[i], lib);
        }
        if Faithful(v) {
          assert UntokenValue(j, lib).value.items == items;
        }
      case _ =>
    }
  }

  lemma {:induction false} DictRoundTrip(v: Value, lib: Library)
    requires v.Dict? && TokenValue(v).Some? && Decimals(v, lib)
    ensures UntokenValue(TokenValue(v).value, lib) == Some(v) <==> Faithful(v)
    decreases v, 0
  {
    var m, j := v.fields, TokenValue(v).value;
    assert j.fields.Keys == m.Keys;
    forall k | k in m
      ensures UntokenValue(j.fields[k], lib) == Some(m[k]) <==> Faithful(m[k])
      ensures j.fields[k].Str? <==> m[k].StrValue?
    {
      ValueRoundTrip(m[k], lib);
      TokenValueIsStr(m[k]);
    }
    if LooksTagged(m) {
      assert IsTagged(j.fields, "$decimal") || IsTagged(j.fields, "$binary");
    } else {
      assert !IsTagged(j.fields, "$decimal") && !IsTagged(j.fields, "$binary");
      if Faithful(v) {
        assert UntokenValue(j, lib).value.fields == m;
      }
    }
  }

  function Body(query: string, key: Json): Json {
    Obj(map["v" := Int(TOKEN_VERSION), "q" := Str(query), "k" := key])
  }

  function Envelope(body: Json, lib: Library): Json {
    Obj(map["p" := body, "d" := Str(lib.sha256(lib.dumps(body)))])
  }

  /** `encode_token`: no key, or an empty one, means there is no next page. */
  function EncodeToken(key: Option<map<string, Value>>, query: string, lib: Library)
    : Result<Option<string>, TokenError>
  {
    if key.None? || key.value == map[] then Success(None)
    else
      match TokenValue(Dict(key.value))
      case None => Failure(UnsupportedValue)
      case Some(j) =>
        var payload := lib.dumps(Envelope(Body(query, j), lib));
        if |payload| > MAX_TOKEN_BYTES then Failure(TokenTooLarge)
        else Success(Some(Base64Url.StripPadding(Base64Url.Encode(payload, Base64Url.UrlSafe))))
  }

  /** Python's `== 1`, which `True` and `1.0` satisfy as well. */
  predicate EqualsVersion(j: Json) { j == Int(TOKEN_VERSION) || j == Bool(true) || j == Float(1.0) }

  /** The checks on the decoded envelope, up to and including the untagging of the key. */
  function OpenEnvelope(envelope: Json, query: string, lib: Library): Option<Value> {
    if !envelope.Obj? || envelope.fields.Keys != {"p", "d"} then None
    else
      var body := envelope.fields["p"];
      if envelope.fields["d"] != Str(lib.sha256(lib.dumps(body))) then None
      else if !body.Obj? || "v" !in body.fields || !EqualsVersion(body.fields["v"]) then None
      else if "q" !in body.fields || body.fields["q"] != Str(query) then None
      else if "k" !in body.fields then Some(NoneValue)
      else UntokenValue(body.fields["k"], lib)
  }

  /** `decode_token`. */
  function DecodeToken(token: Option<string>, query: string, lib: Library)
    : Result<Option<map<string, Value>>, TokenError>
  {
    if token.None? then Success(None)
    else
      match Base64Url.Decode(token.value + Base64Url.Padding(|token.value|), Base64Url.UrlSafe)
      case None => Failure(InvalidToken)
      case Some(raw) =>
        if |raw| > MAX_TOKEN_BYTES then Failure(InvalidToken)
        else
          match lib.loads(raw)
          case None => Failure(InvalidToken)
          case Some(envelope) =>
            match OpenEnvelope(envelope, query, lib)
            case Some(Dict(m)) => Success(Some(m))
            case _ => Failure(InvalidToken)
  }

  lemma EnvelopeOpens(j: Json, issued: string, asked: string, lib: Library)
    ensures OpenEnvelope(Envelope(Body(issued, j), lib), asked, lib)
         == if asked == issued then UntokenValue(j, lib) else None
  {
    assert Envelope(Body(issued, j), lib).fields.Keys == {"p", "d"};
  }

  lemma PayloadReadBack(payload: seq<Byte>)
    ensures var t := Base64Url.StripPadding(Base64Url.Encode(payload, Base64Url.UrlSafe));
      Base64Url.Decode(t + Base64Url.Padding(|t|), Base64Url.UrlSafe) == Some(payload)
  {
    Base64Url.PaddingRestored(payload, Base64Url.UrlSafe);
    Base64Url.DecodeInvertsEncode(payload, Base64Url.UrlSafe);
  }

  /** An issued token opens to what was put into it. */
  lemma IssuedOpens(key: map<string, Value>, issued: string, asked: string, lib: Library)
    requires lib.Lawful() && key != map[] && EncodeToken(Some(key), issued, lib).Success?
    ensures TokenValue(Dict(key)).Some? && EncodeToken(Some(key), issued, lib).value.Some?
    ensures DecodeToken(EncodeToken(Some(key), issued, lib).value, asked, lib)
         == match if asked == issued then UntokenValue(TokenValue(Dict(key)).value, lib) else None
            case Some(Dict(m)) => Success(Some(m))
            case _ => Failure(InvalidToken)
  {
    var j := TokenValue(Dict(key)).value;
    var payload := lib.dumps(Envelope(Body(issued, j), lib));
    PayloadReadBack(payload);
    assert lib.loads(payload) == Some(Envelope(Body(issued, j), lib));
    EnvelopeOpens(j, issued, asked, lib);
  }

  /** A token opens under the query it was issued for and no other, and what it yields is
      the key it was made from exactly when the key is faithful. */
  lemma TokenRoundTrip(key: map<string, Value>, issued: string, asked: string, lib: Library)
    requires lib.Lawful() && key != map[] && Decimals(Dict(key), lib)
    requires EncodeToken(Some(key), issued, lib).Success?
    ensures var token := EncodeToken(Some(key), issued, lib).value;
      && token.Some?
      && (asked != issued ==> DecodeToken(token, asked, lib) == Failure(InvalidToken))
      && (DecodeToken(token, asked, lib) == Success(Some(key)) <==> asked == issued && Faithful(Dict(key)))
  {
    IssuedOpens(key, issued, asked, lib);
    ValueRoundTrip(Dict(key), lib);
  }

  /** What the text of a token opens to, if it is one. */
  predicate Unpacks(token: string, body: Json, lib: Library) {
    var raw := Base64Url.Decode(token + Base64Url.Padding(|token|), Base64Url.UrlSafe);
    && raw.Some? && |raw.value| <= 16384
    && lib.loads(raw.value) == Some(Obj(map["p" := body, "d" := Str(lib.sha256(lib.dumps(body)))]))
  }

  /** A body of this version, for this query. */
  predicate IsFor(body: Json, query: string) {
    body.Obj? && "v" in body.fields && (body.fields["v"] == Int(1) || body.fields["v"] == Bool(true) || body.fields["v"] == Float(1.0))
    && "q" in body.fields && body.fields["q"] == Str(query)
  }

  /** Exactly these tokens are accepted: they unpack to a body with its own digest beside it, of the
      current version, for the query asked, and with a dictionary as its key. */
  lemma AcceptedIff(token: string, query: string, key: map<string, Value>, lib: Library)
    ensures DecodeToken(Some(token), query, lib) == Success(Some(key)) <==>
      exists body :: Unpacks(token, body, lib) && IsFor(body, query)
        && "k" in body.fields && UntokenValue(body.fields["k"], lib) == Some(Dict(key))
  {
    if DecodeToken(Some(token), query, lib) == Success(Some(key)) {
      var raw := Base64Url.Decode(token + Base64Url.Padding(|token|), Base64Url.UrlSafe).value;
      var envelope := lib.loads(raw).value;
      var body := envelope.fields["p"];
      assert envelope.fields == map["p" := body, "d" := Str(lib.sha256(lib.dumps(body)))];
      assert Unpacks(token, body, lib);
    }
  }

  /** Any other token is refused as invalid. */
  lemma RefusedOtherwise(token: string, query: string, lib: Library)
    ensures DecodeToken(Some(token), query, lib).Success? ==> DecodeToken(Some(token), query, lib).value.Some?
    ensures DecodeToken(Some(token), query, lib).Failure? ==> DecodeToken(Some(token), query, lib).error == InvalidToken
  {
  }

  /** Nothing in the value is of a kind that a token cannot hold. */
  predicate Supported(v: Value) {
    match v
    case Dict(m) => forall k :: k in m ==> Supported(m[k])
    case List(items) => forall i :: 0 <= i < |items| ==> Supported(items[i])
    case Tuple(items) => forall i :: 0 <= i < |items| ==> Supported(items[i])
    case Unsupported => false
    case _ => true
  }

  lemma {:induction false} SupportedIff(v: Value)
    ensures TokenValue(v).Some? <==> Supported(v)
    decreases v
  {
    match v
    case Dict(m) => forall k | k in m ensures TokenValue(m[k]).Some? <==> Supported(m[k]) { SupportedIff(m[k]); }
    case List(items) =>
      forall i | 0 <= i < |items| ensures TokenValue(items[i]).Some? <==> Supported(items[i]) { SupportedIff(items[i]); }
    case Tuple(items) =>
      forall i | 0 <= i < |items| ensures TokenValue(items[i]).Some? <==> Supported(items[i]) { SupportedIff(items[i]); }
    case _ =>
  }

  /** What an issued token holds: version 1, the query and the tagged key, and nothing else. */
  lemma IssuedUnpacks(key: map<string, Value>, query: string, lib: Library)
    requires lib.Lawful() && key != map[] && EncodeToken(Some(key), query, lib).Success?
    ensures TokenValue(Dict(key)).Some? && EncodeToken(Some(key), query, lib).value.Some?
    ensures Unpacks(EncodeToken(Some(key), query, lib).value.value,
                    Obj(map["v" := Int(1), "q" := Str(query), "k" := TokenValue(Dict(key)).value]), lib)
  {
    PayloadReadBack(lib.dumps(Envelope(Body(query, TokenValue(Dict(key)).value), lib)));
  }

  /** A token is issued exactly for a key of supported values whose envelope fits the limit. */
  lemma IssuedIff(key: map<string, Value>, query: string, lib: Library)
    requires key != map[]
    ensures Supported(Dict(key)) <==> TokenValue(Dict(key)).Some?
    ensures EncodeToken(Some(key), query, lib).Success? <==>
      Supported(Dict(key)) && |lib.dumps(Envelope(Body(query, TokenValue(Dict(key)).value), lib))| <= 16384
    ensures EncodeToken(Some(key), query, lib).Failure? ==>
      EncodeToken(Some(key), query, lib).error == if Supported(Dict(key)) then TokenTooLarge else UnsupportedValue
  {
    SupportedIff(Dict(key));
  }

  /** No next page is issued exactly for a missing or empty key, and read back as none. */
  lemma NoTokenForNoKey(key: Option<map<string, Value>>, query: string, lib: Library)
    ensures EncodeToken(key, query, lib) == Success(None) <==> key.None? || key.value == map[]
    ensures DecodeToken(None, query, lib) == Success(None)
  {
  }

  /** Two faithful keys never share a token, not even across queries. */
  lemma TokensAreUnambiguous(k1: map<string, Value>, q1: string, k2: map<string, Value>, q2: string, lib: Library)
    requires lib.Lawful() && k1 != map[] && k2 != map[]
    requires Decimals(Dict(k1), lib) && Decimals(Dict(k2), lib) && Faithful(Dict(k1)) && Faithful(Dict(k2))
    requires EncodeToken(Some(k1), q1, lib).Success?
    requires EncodeToken(Some(k1), q1, lib) == EncodeToken(Some(k2), q2, lib)
    ensures k1 == k2 && q1 == q2
  {
    TokenRoundTrip(k1, q1, q1, lib);
    TokenRoundTrip(k2, q2, q1, lib);
  }

  /** Decoding an issued token untags what encoding tagged, whatever that gives. */
  lemma TokenUntags(key: map<string, Value>, query: string, lib: Library)
    requires lib.Lawful() && key != map[] && EncodeToken(Some(key), query, lib).Success?
    ensures var value := UntokenValue(TokenValue(Dict(key)).value, lib);
      value.Some? && value.value.Dict? ==>
        DecodeToken(EncodeToken(Some(key), query, lib).value, query, lib) == Success(Some(value.value.fields))
  {
    IssuedOpens(key, query, query, lib);
  }

  lemma LookalikeUntags(lib: Library)
    requires lib.decimal("1") == Some("1")
    ensures var v := Dict(map["$decimal" := StrValue("1")]);
      TokenValue(v).Some? && UntokenValue(TokenValue(v).value, lib) == Some(Dec("1"))
  {
    var m := map["$decimal" := StrValue("1")];
    var j := TokenValue(Dict(m)).value;
    assert j.fields.Keys == m.Keys;
    assert IsTagged(j.fields, "$decimal");
  }

  lemma FieldTags(v: Value)
    requires TokenValue(v).Some?
    ensures TokenValue(Dict(map["pk" := v])) == Some(Obj(map["pk" := TokenValue(v).value]))
  {
    assert TokenValue(Dict(map["pk" := v])).value.fields == map["pk" := TokenValue(v).value];
  }

  lemma FieldUntags(j: Json, w: Value, lib: Library)
    requires UntokenValue(j, lib) == Some(w)
    ensures UntokenValue(Obj(map["pk" := j]), lib) == Some(Dict(map["pk" := w]))
  {
    var outer := map["pk" := j];
    assert "pk" in outer.Keys;
    assert !IsTagged(outer, "$decimal") && !IsTagged(outer, "$binary");
    assert UntokenValue(Obj(outer), lib).value.fields == map["pk" := w];
  }

  /** The rejected families are inhabited: a key one of whose fields is a dictionary that looks like
      a tagged decimal is read back with a decimal in that field. */
  lemma LooksTaggedIsLost(query: string, lib: Library)
    requires lib.Lawful() && lib.decimal("1") == Some("1")
    requires EncodeToken(Some(map["pk" := Dict(map["$decimal" := StrValue("1")])]), query, lib).Success?
    ensures var key := map["pk" := Dict(map["$decimal" := StrValue("1")])];
      DecodeToken(EncodeToken(Some(key), query, lib).value, query, lib) == Success(Some(map["pk" := Dec("1")]))
  {
    var v := Dict(map["$decimal" := StrValue("1")]);
    LookalikeUntags(lib);
    FieldTags(v);
    FieldUntags(TokenValue(v).value, Dec("1"), lib);
    var key := map["pk" := v];
    assert "pk" in key;
    TokenUntags(key, query, lib);
  }
}
