/** The loops of `validate_payload`, which collect problems and may raise on the way, proved
    against `Schema.Accepted`. */
module Validation {
  import opened Wrappers
  import opened Schema
  import Numerals

  datatype Kind =
    | WrongType | Missing | Additional | TooFew | TooMany | TooLong
    | BelowMinimum | AboveMaximum | NotAboveMinimum | NotBelowMaximum | OutsideEnum

  datatype Problem = Problem(path: string, kind: Kind)

  /** A comparison or a lookup that Python refuses. */
  datatype Raised = TypeError

  type Report = Result<seq<Problem>, Raised>

  const CLEAN: Report := Success([])

  function Member(path: string, key: Word): string { path + "." + Spelling(key) }

  /** `any(matches(kind) for kind in expected_types)`. */
  method MatchesAny(p: Doc, kinds: seq<Doc>) returns (r: Result<bool, Raised>)
    ensures r == Success(true) <==> exists i :: 0 <= i < |kinds| && Matches(p, kinds[i]) && forall j :: 0 <= j < i ==> Hashable(kinds[j])
  {
    var i := 0;
    while i < |kinds|
      invariant i <= |kinds|
      invariant forall j :: 0 <= j < i ==> Hashable(kinds[j]) && !Matches(p, kinds[j])
    {
      if !Hashable(kinds[i]) {
        return Failure(TypeError);
      }
      if Matches(p, kinds[i]) {
        return Success(true);
      }
      i := i + 1;
    }
    r := Success(false);
  }

  /** `[... for key in required if key not in payload]` for a list. */
  method RequiredList(payload: Fields, names: seq<Doc>, path: string) returns (r: Report)
    ensures r == CLEAN <==> forall i :: 0 <= i < |names| ==> names[i].Str? && names[i].s in payload
  {
    var problems: seq<Problem> := [];
    var i := 0;
    while i < |names|
      invariant i <= |names|
      invariant problems == [] <==> forall j :: 0 <= j < i ==> names[j].Str? && names[j].s in payload
    {
      if !Hashable(names[i]) {
        return Failure(TypeError);
      }
      if !(names[i].Str? && names[i].s in payload) {
        problems := problems + [Problem(path, Missing)];
      }
      i := i + 1;
    }
    r := Success(problems);
  }

  /** The same over the characters of a string or the keys of an object, as Python iterates. */
  method RequiredWords(payload: Fields, names: set<Word>, path: string) returns (r: Report)
    ensures r == CLEAN <==> names <= payload.Keys
  {
    var problems: seq<Problem> := [];
    var pending := names;
    while pending != {}
      invariant pending <= names
      invariant problems == [] <==> names - pending <= payload.Keys
      decreases |pending|
    {
      var name :| name in pending;
      if name !in payload {
        problems := problems + [Problem(Member(path, name), Missing)];
      }
      pending := pending - {name};
    }
    r := Success(problems);
  }

  method CheckRequired(payload: Fields, m: Fields, path: string) returns (r: Report)
    ensures r == CLEAN <==> RequiredOk(payload, m)
  {
    if REQUIRED !in m {
      return CLEAN;
    }
    match m[REQUIRED] {
      case Arr(xs) => r := RequiredList(payload, xs, path);
      case Str(s) =>
        var letters := set i | 0 <= i < |Spelling(s)| :: Other([Spelling(s)[i]]);
        r := RequiredWords(payload, letters, path);
      case Obj(names) => r := RequiredWords(payload, names.Keys, path);
      case _ => r := Failure(TypeError);
    }
  }

  /** `[... for key in payload if key not in properties]`. */
  method CheckExtras(payload: Fields, m: Fields, path: string) returns (r: Report)
    ensures r == CLEAN <==> NoExtras(payload, m)
  {
    if ADDITIONAL_PROPERTIES !in m || m[ADDITIONAL_PROPERTIES] != Bool(false) {
      return CLEAN;
    }
    var problems: seq<Problem> := [];
    var pending := payload.Keys;
    while pending != {}
      invariant pending <= payload.Keys
      invariant problems == [] <==> forall k :: k in payload && k !in pending ==> Contains(Properties(m), k) == Some(true)
      decreases |pending|
    {
      var key :| key in pending;
      var known := Contains(Properties(m), key);
      if known.None? {
        return Failure(TypeError);
      }
      if !known.value {
        problems := problems + [Problem(Member(path, key), Additional)];
      }
      pending := pending - {key};
    }
    r := Success(problems);
  }

  /** One optional bound: `holds` says whether the comparison is met. */
  method CheckBound(m: Fields, key: Word, holds: real -> bool, problem: Problem) returns (r: Report)
    ensures r == CLEAN <==> (key in m ==> Numeric(m[key]).Some? && holds(Numeric(m[key]).value))
  {
    if key !in m {
      return CLEAN;
    }
    var limit := Numeric(m[key]);
    r := if limit.None? then Failure(TypeError) else if holds(limit.value) then CLEAN else Success([problem]);
  }

  /** `errors += ...`. */
  function Both(a: Report, b: Report): (r: Report)
    ensures r == CLEAN <==> a == CLEAN && b == CLEAN
  {
    if a.Failure? then a
    else if b.Failure? then b
    else
      assert |a.value + b.value| == |a.value| + |b.value|;
      assert a.value == [] && b.value == [] ==> a.value + b.value == [];
      Success(a.value + b.value)
  }

  method CheckNumber(n: real, m: Fields, path: string) returns (r: Report)
    ensures r == CLEAN <==> BoundsOk(n, m)
  {
    var low := CheckBound(m, MINIMUM, limit => limit <= n, Problem(path, BelowMinimum));
    var high := CheckBound(m, MAXIMUM, limit => n <= limit, Problem(path, AboveMaximum));
    var above := CheckBound(m, EXCLUSIVE_MINIMUM, limit => limit < n, Problem(path, NotAboveMinimum));
    var below := CheckBound(m, EXCLUSIVE_MAXIMUM, limit => n < limit, Problem(path, NotBelowMaximum));
    r := Both(Both(Both(low, high), above), below);
  }

  method CheckScalar(p: Doc, m: Fields, path: string) returns (r: Report)
    ensures r == CLEAN <==> ScalarOk(p, m)
  {
    match p {
      case Str(s) => r := CheckBound(m, MAX_LENGTH, limit => |Spelling(s)| as real <= limit, Problem(path, TooLong));
      case Int(i) => r := CheckNumber(i as real, m, path);
      case Float(x) => r := CheckNumber(x, m, path);
      case _ => r := CLEAN;
    }
  }

  method CheckLength(n: nat, m: Fields, path: string) returns (r: Report)
    ensures r == CLEAN <==> LengthOk(n, m)
  {
    var few := CheckBound(m, MIN_ITEMS, limit => limit <= n as real, Problem(path, TooFew));
    var many := CheckBound(m, MAX_ITEMS, limit => n as real <= limit, Problem(path, TooMany));
    r := Both(few, many);
  }

  method CheckEnum(p: Doc, m: Fields, path: string) returns (r: Report)
    ensures r == CLEAN <==> EnumOk(p, m)
  {
    if ENUM !in m {
      return CLEAN;
    }
    var outside := [Problem(path, OutsideEnum)];
    match m[ENUM] {
      case Arr(xs) => r := if exists i :: 0 <= i < |xs| && Equal(p, xs[i]) then CLEAN else Success(outside);
      case Obj(names) =>
        r := if !Hashable(p) then Failure(TypeError) else if p.Str? && p.s in names then CLEAN else Success(outside);
      case Str(s) =>
        r := if !p.Str? then Failure(TypeError) else if Within(Spelling(p.s), Spelling(s)) then CLEAN else Success(outside);
      case _ => r := Failure(TypeError);
    }
  }

  predicate PropertyOk(value: Doc, m: Fields, k: Word) {
    && Contains(Properties(m), k).Some?
    && (Contains(Properties(m), k).value ==> Properties(m).Obj? && Accepted(value, Properties(m).fields[k]))
  }

  /** `for key, value in payload.items()`. */
  method CheckProperties(p: Doc, m: Fields, path: string) returns (r: Report)
    requires p.Obj?
    ensures r == CLEAN <==> forall k :: k in p.fields ==> PropertyOk(p.fields[k], m, k)
    decreases p, 0
  {
    r := CLEAN;
    var pending := p.fields.Keys;
    while pending != {}
      invariant pending <= p.fields.Keys
      invariant r == CLEAN <==> forall k :: k in p.fields && k !in pending ==> PropertyOk(p.fields[k], m, k)
      decreases |pending|
    {
      var key :| key in pending;
      var one := CheckProperty(p, m, key, path);
      r := Both(r, one);
      pending := pending - {key};
    }
  }

  method CheckProperty(p: Doc, m: Fields, key: Word, path: string) returns (r: Report)
    requires p.Obj? && key in p.fields
    ensures r == CLEAN <==> PropertyOk(p.fields[key], m, key)
    decreases p, 0, 0
  {
    var known := Contains(Properties(m), key);
    if known.None? {
      return Failure(TypeError);
    }
    if !known.value {
      return CLEAN;
    }
    if !Properties(m).Obj? {
      return Failure(TypeError);
    }
    r := Validate(p.fields[key], Properties(m).fields[key], Member(path, key));
  }

  /** `for index, value in enumerate(payload)`. */
  method CheckItems(p: Doc, m: Fields, path: string) returns (r: Report)
    requires p.Arr?
    ensures r == CLEAN <==> forall i :: 0 <= i < |p.items| ==> Accepted(p.items[i], Items(m))
    decreases p, 0
  {
    r := CLEAN;
    var i := 0;
    while i < |p.items|
      invariant i <= |p.items|
      invariant r == CLEAN <==> forall j :: 0 <= j < i ==> Accepted(p.items[j], Items(m))
    {
      var one := Validate(p.items[i], Items(m), path + "[" + Numerals.Text(i) + "]");
      r := Both(r, one);
      i := i + 1;
    }
  }

  /** `validate_payload`: it finds nothing and raises nothing exactly on accepted payloads. */
  method Validate(p: Doc, schema: Doc, path: string) returns (r: Report)
    ensures r == CLEAN <==> Accepted(p, schema)
    decreases p, 1
  {
    if !schema.Obj? {
      return Failure(TypeError);
    }
    var m := schema.fields;
    if Declared(m) != [] {
      var matching := MatchesAny(p, Declared(m));
      if matching != Success(true) {
        var printable := forall i :: 0 <= i < |Declared(m)| ==> Declared(m)[i].Str?;
        return if matching.Failure? || !printable then Failure(TypeError) else Success([Problem(path, WrongType)]);
      }
    }
    r := CLEAN;
    if p.Obj? {
      var required := CheckRequired(p.fields, m, path);
      var extras := CheckExtras(p.fields, m, path);
      var properties := CheckProperties(p, m, path);
      r := Both(Both(required, extras), properties);
    }
    if p.Arr? {
      var length := CheckLength(|p.items|, m, path);
      var items := CheckItems(p, m, path);
      r := Both(length, items);
    }
    var scalar := CheckScalar(p, m, path);
    var listed := CheckEnum(p, m, path);
    r := Both(Both(r, scalar), listed);
  }
}
