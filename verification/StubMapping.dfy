/** The deterministic value the stub provider builds for a schema, and when that value is
    valid under the schema it was built for. */
module StubMapping {
  import opened Wrappers
  import opened Schema

  // ---- The generator ------------------------------------------------------------------

  /** Python's truth value. */
  predicate Truthy(d: Doc) {
    match d
    case Null => false
    case Bool(b) => b
    case Int(i) => i != 0
    case Float(r) => r != 0.0
    case Str(s) => Spelling(s) != ""
    case Arr(xs) => xs != []
    case Obj(m) => m != map[]
  }

  /** `round`: to the nearest integer, halves to the even one. */
  function Round(r: real): int {
    var f := r.Floor;
    var rest := r - f as real;
    if rest < 0.5 || (rest == 0.5 && f % 2 == 0) then f else f + 1
  }

  lemma RoundMonotone(a: real, b: real)
    requires a <= b
    ensures Round(a) <= Round(b)
  {
    assert a.Floor <= b.Floor;
  }

  function FirstNonNull(kinds: seq<Doc>): Doc {
    if kinds == [] then Str(NULL) else if kinds[0] != Str(NULL) then kinds[0] else FirstNonNull(kinds[1..])
  }

  /** The kind of value to build. */
  function KindOf(m: Fields): Doc {
    if TYPE !in m then Null else if m[TYPE].Arr? then FirstNonNull(m[TYPE].items) else m[TYPE]
  }

  function Required(m: Fields): Doc { if REQUIRED in m then m[REQUIRED] else Arr([]) }

  /** `range(schema.get("minItems", 0))`; None where it raises. */
  function Count(m: Fields): Option<nat> {
    if MIN_ITEMS !in m then Some(0)
    else
      match m[MIN_ITEMS]
      case Int(i) => Some(if i > 0 then i else 0)
      case Bool(b) => Some(if b then 1 else 0)
      case _ => None
  }

  function Scale(severity: real, field: Option<Word>): real {
    if field == Some(CAPACITY_MULTIPLIER) then 1.0 - severity else severity
  }

  function Minimum(m: Fields): Doc { if MINIMUM in m then m[MINIMUM] else Int(0) }

  function Maximum(m: Fields): Doc { if MAXIMUM in m then m[MAXIMUM] else Null }

  /** `low + scale * width`. */
  function Interpolate(low: real, width: real, scale: real): real { low + scale * width }

  /** A number across the advertised range; an integer is rounded. */
  function Number(m: Fields, scale: real, whole: bool): Option<Doc> {
    var low, high := Numeric(Minimum(m)), Numeric(Maximum(m));
    if Maximum(m).Null? then
      if !whole then Some(Minimum(m)) else if low.None? then None else Some(Int(Round(low.value)))
    else if low.None? || high.None? then None
    else
      var value := Interpolate(low.value, high.value - low.value, scale);
      Some(if whole then Int(Round(value)) else Float(value))
  }

  /** `_stub_mapping_value`; None where it raises. */
  function Stub(schema: Doc, severity: real, field: Option<Word>): Option<Doc>
    decreases schema
  {
    if !schema.Obj? then None
    else
      var m := schema.fields;
      if CONST in m then Some(m[CONST])
      else if ENUM in m && Truthy(m[ENUM]) then
        match m[ENUM]
        case Arr(xs) => Some(xs[0])
        case Str(s) => Some(Str(Other([Spelling(s)[0]])))
        case _ => None
      else if KindOf(m) == Str(OBJECT) then StubObject(schema, severity)
      else if KindOf(m) == Str(ARRAY) then StubArray(schema, severity)
      else if KindOf(m) == Str(NUMBER) then Number(m, Scale(severity, field), false)
      else if KindOf(m) == Str(INTEGER) then Number(m, Scale(severity, field), true)
      else if KindOf(m) == Str(STRING) then Some(Str(STUB))
      else if KindOf(m) == Str(BOOLEAN) then Some(Bool(severity >= 0.5))
      else Some(Null)
  }

  predicate Wanted(m: Fields, name: Word) { Contains(Required(m), name) == Some(true) }

  function StubObject(schema: Doc, severity: real): Option<Doc>
    requires schema.Obj?
    decreases schema, 0
  {
    var m := schema.fields;
    if PROPERTIES !in m then Some(Obj(map[]))
    else
      match m[PROPERTIES]
      case Obj(props) =>
        if exists name :: name in props && Contains(Required(m), name).None? then None
        else if exists name :: name in props && Wanted(m, name) && Stub(props[name], severity, Some(name)).None? then None
        else Some(Obj(map name | name in props && Wanted(m, name) :: Stub(props[name], severity, Some(name)).value))
      case _ => None
  }

  function StubArray(schema: Doc, severity: real): Option<Doc>
    requires schema.Obj?
    decreases schema, 0
  {
    var m := schema.fields;
    if Count(m).None? then None
    else if Count(m).value == 0 then Some(Arr([]))
    else
      var item := if ITEMS in m then Stub(m[ITEMS], severity, None) else Some(Null);
      if item.None? then None else Some(Arr(seq(Count(m).value, i => item.value)))
  }

  // ---- Well-typed schemas -------------------------------------------------------------

  predicate IsType(d: Doc) { d.Str? && d.s in {OBJECT, ARRAY, STRING, NUMBER, INTEGER, BOOLEAN, NULL} }

  predicate IsNumber(m: Fields, key: Word) { key in m ==> m[key].Int? || m[key].Float? }

  predicate IsCount(m: Fields, key: Word) { key in m ==> m[key].Int? && m[key].i >= 0 }

  /** The keywords the generator and the validator read have values of the right type. */
  predicate WellTyped(schema: Doc)
    decreases schema
  {
    && schema.Obj?
    && (TYPE in schema.fields ==>
          || IsType(schema.fields[TYPE])
          || (schema.fields[TYPE].Arr? && schema.fields[TYPE].items != []
              && forall i :: 0 <= i < |schema.fields[TYPE].items| ==> IsType(schema.fields[TYPE].items[i])))
    && (PROPERTIES in schema.fields ==>
          && schema.fields[PROPERTIES].Obj?
          && forall k :: k in schema.fields[PROPERTIES].fields ==> WellTyped(schema.fields[PROPERTIES].fields[k]))
    && (REQUIRED in schema.fields ==>
          && schema.fields[REQUIRED].Arr?
          && forall i :: 0 <= i < |schema.fields[REQUIRED].items| ==> schema.fields[REQUIRED].items[i].Str?)
    && (ITEMS in schema.fields ==> WellTyped(schema.fields[ITEMS]))
    && IsCount(schema.fields, MIN_ITEMS) && IsCount(schema.fields, MAX_ITEMS) && IsCount(schema.fields, MAX_LENGTH)
    && IsNumber(schema.fields, MINIMUM) && IsNumber(schema.fields, MAXIMUM)
    && IsNumber(schema.fields, EXCLUSIVE_MINIMUM) && IsNumber(schema.fields, EXCLUSIVE_MAXIMUM)
    && (ENUM in schema.fields ==> schema.fields[ENUM].Arr?)
  }

  // ---- When the generated value is valid ----------------------------------------------

  function Low(m: Fields): real { if Numeric(Minimum(m)).Some? then Numeric(Minimum(m)).value else 0.0 }

  function High(m: Fields): real { if Numeric(Maximum(m)).Some? then Numeric(Maximum(m)).value else Low(m) }

  /** The whole range of numbers the generator can give satisfies the bounds. */
  predicate RangeOk(m: Fields, whole: bool) {
    && Low(m) <= High(m)
    && BoundsOk(if whole then Round(Low(m)) as real else Low(m), m)
    && BoundsOk(if whole then Round(High(m)) as real else High(m), m)
  }

  /** A given value has a declared type. */
  predicate OfType(p: Doc, m: Fields) {
    TYPE in m ==>
      if m[TYPE].Arr? then exists i :: 0 <= i < |m[TYPE].items| && Matches(p, m[TYPE].items[i]) else Matches(p, m[TYPE])
  }

  predicate Listed(p: Doc, m: Fields)
    requires ENUM in m ==> m[ENUM].Arr?
  {
    ENUM in m ==> exists i :: 0 <= i < |m[ENUM].items| && Equal(p, m[ENUM].items[i])
  }

  predicate NumberSuits(n: real, m: Fields)
    requires IsNumber(m, MINIMUM) && IsNumber(m, MAXIMUM) && IsNumber(m, EXCLUSIVE_MINIMUM) && IsNumber(m, EXCLUSIVE_MAXIMUM)
  {
    && (MINIMUM in m ==> Numeric(m[MINIMUM]).value <= n) && (MAXIMUM in m ==> n <= Numeric(m[MAXIMUM]).value)
    && (EXCLUSIVE_MINIMUM in m ==> Numeric(m[EXCLUSIVE_MINIMUM]).value < n)
    && (EXCLUSIVE_MAXIMUM in m ==> n < Numeric(m[EXCLUSIVE_MAXIMUM]).value)
  }

  /** A given value meets the schema, leaving aside its own enumeration: type, length, bounds,
      and the same, with enumerations, for its parts. */
  predicate Suits(p: Doc, schema: Doc)
    requires WellTyped(schema)
    decreases p
  {
    var m := schema.fields;
    && OfType(p, m)
    && match p
       case Str(s) => MAX_LENGTH in m ==> |Spelling(s)| <= m[MAX_LENGTH].i
       case Int(i) => NumberSuits(i as real, m)
       case Float(r) => NumberSuits(r, m)
       case Obj(fields) =>
         && (forall i :: 0 <= i < |Required(m).items| ==> Required(m).items[i].s in fields)
         && (forall k :: k in fields ==>
               if HasProperty(schema, k) then Suits(fields[k], PropertyOf(schema, k)) && Listed(fields[k], PropertyOf(schema, k).fields)
               else !(ADDITIONAL_PROPERTIES in m && m[ADDITIONAL_PROPERTIES] == Bool(false)))
       case Arr(items) =>
         && Count(m).value <= |items| && (MAX_ITEMS in m ==> |items| <= m[MAX_ITEMS].i)
         && (ITEMS in m ==>
               forall i :: 0 <= i < |items| ==> Suits(items[i], m[ITEMS]) && Listed(items[i], m[ITEMS].fields))
       case _ => true
  }

  /** Conditions that can be read off a well-typed schema. */
  predicate Satisfiable(schema: Doc)
    requires WellTyped(schema)
    decreases schema
  {
    var m := schema.fields;
    if CONST in m then Suits(m[CONST], schema) && Listed(m[CONST], m)
    else if ENUM in m then m[ENUM].items != [] && Suits(m[ENUM].items[0], schema)
    else if KindOf(m) == Str(OBJECT) then
      && (forall i :: 0 <= i < |Required(m).items| ==> HasProperty(schema, Required(m).items[i].s))
      && (PROPERTIES in m ==>
            forall k :: k in m[PROPERTIES].fields && Wanted(m, k) ==> Satisfiable(m[PROPERTIES].fields[k]))
    else if KindOf(m) == Str(ARRAY) then
      && (MAX_ITEMS in m ==> Count(m).value <= m[MAX_ITEMS].i)
      && (Count(m).value > 0 && ITEMS in m ==> Satisfiable(m[ITEMS]))
    else if KindOf(m) == Str(NUMBER) then RangeOk(m, false)
    else if KindOf(m) == Str(INTEGER) then RangeOk(m, true)
    else if KindOf(m) == Str(STRING) then MAX_LENGTH in m ==> 4 <= m[MAX_LENGTH].i
    else true
  }

  /** The generated value exists and passes. */
  predicate Passes(schema: Doc, severity: real, field: Option<Word>) {
    var value := Stub(schema, severity, field);
    value.Some? && Accepted(value.value, schema)
  }

  // ---- The declared type is met -------------------------------------------------------

  lemma {:induction false} FirstNonNullIsListed(kinds: seq<Doc>)
    requires kinds != []
    ensures FirstNonNull(kinds) in kinds
  {
    if |kinds| > 1 && kinds[0] == Str(NULL) {
      FirstNonNullIsListed(kinds[1..]);
    } else if kinds[0] == Str(NULL) {
      assert FirstNonNull(kinds[1..]) == Str(NULL);
    }
  }

  /** A value of the kind that the generator chose passes the type check. */
  lemma KindPasses(p: Doc, schema: Doc)
    requires WellTyped(schema) && (TYPE in schema.fields ==> Matches(p, KindOf(schema.fields)))
    ensures TypeOk(p, Declared(schema.fields))
  {
    var m := schema.fields;
    if TYPE in m {
      var kinds := Declared(m);
      if m[TYPE].Arr? { FirstNonNullIsListed(kinds); }
      assert KindOf(m) in kinds;
      var i :| 0 <= i < |kinds| && kinds[i] == KindOf(m);
      assert forall j :: 0 <= j < |kinds| ==> IsType(kinds[j]);
    }
  }

  // ---- Given values ---------------------------------------------------------------------

  lemma OfTypeIff(p: Doc, schema: Doc)
    requires WellTyped(schema)
    ensures OfType(p, schema.fields) <==> TypeOk(p, Declared(schema.fields))
  {
    var m := schema.fields;
    if TYPE in m {
      var kinds := Declared(m);
      assert forall j :: 0 <= j < |kinds| ==> IsType(kinds[j]) && Hashable(kinds[j]);
      if !m[TYPE].Arr? {
        assert kinds == [m[TYPE]];
        assert Matches(p, m[TYPE]) <==> Matches(p, kinds[0]);
      }
    }
  }

  lemma {:induction false} ValueSuits(p: Doc, schema: Doc)
    requires WellTyped(schema)
    ensures Accepted(p, schema) <==> Suits(p, schema) && Listed(p, schema.fields)
    decreases p
  {
    OfTypeIff(p, schema);
    if p.Obj? { ObjectSuits(p, schema); }
    if p.Arr? { ArraySuits(p, schema); }
  }

  lemma RequiredSuits(payload: Fields, schema: Doc)
    requires WellTyped(schema)
    ensures RequiredOk(payload, schema.fields)
       <==> forall i :: 0 <= i < |Required(schema.fields).items| ==> Required(schema.fields).items[i].s in payload
  {
    var names := Required(schema.fields).items;
    assert forall i :: 0 <= i < |names| ==> names[i].Str?;
    if REQUIRED in schema.fields {
      assert schema.fields[REQUIRED] == Arr(names);
      if RequiredOk(payload, schema.fields) {
        forall i | 0 <= i < |names| ensures names[i].s in payload {}
      } else {
        assert exists i :: 0 <= i < |names| && !(names[i].Str? && names[i].s in payload);
      }
    }
  }

  lemma {:induction false} ObjectSuits(p: Doc, schema: Doc)
    requires WellTyped(schema) && p.Obj?
    ensures Accepted(p, schema) <==> Suits(p, schema) && Listed(p, schema.fields)
    decreases p, 0
  {
    var m := schema.fields;
    OfTypeIff(p, schema);
    RequiredSuits(p.fields, schema);
    assert forall k :: Contains(Properties(m), k) == Some(HasProperty(schema, k));
    forall k | k in p.fields && HasProperty(schema, k)
      ensures Accepted(p.fields[k], PropertyOf(schema, k))
        <==> Suits(p.fields[k], PropertyOf(schema, k)) && Listed(p.fields[k], PropertyOf(schema, k).fields)
    {
      ValueSuits(p.fields[k], PropertyOf(schema, k));
    }
  }

  lemma {:induction false} ArraySuits(p: Doc, schema: Doc)
    requires WellTyped(schema) && p.Arr?
    ensures Accepted(p, schema) <==> Suits(p, schema) && Listed(p, schema.fields)
    decreases p, 0
  {
    var m := schema.fields;
    OfTypeIff(p, schema);
    forall i | 0 <= i < |p.items|
      ensures Accepted(p.items[i], Items(m))
        <==> (ITEMS in m ==> Suits(p.items[i], m[ITEMS]) && Listed(p.items[i], m[ITEMS].fields))
    {
      if ITEMS in m { ValueSuits(p.items[i], m[ITEMS]); } else { EmptySchemaAccepts(p.items[i]); }
    }
  }

  /** What the generator gives for a constant or an enumeration is valid exactly if it suits. */
  lemma GivenPassesIff(schema: Doc, severity: real, field: Option<Word>)
    requires WellTyped(schema) && (CONST in schema.fields || (ENUM in schema.fields && schema.fields[ENUM].items != []))
    ensures Passes(schema, severity, field) <==> Satisfiable(schema)
  {
    var m := schema.fields;
    if CONST in m {
      ValueSuits(m[CONST], schema);
    } else {
      var first := m[ENUM].items[0];
      EqualItself(first);
      ValueSuits(first, schema);
    }
  }

  // ---- Numbers ------------------------------------------------------------------------

  lemma BoundsBetween(low: real, n: real, high: real, m: Fields)
    requires low <= n <= high && BoundsOk(low, m) && BoundsOk(high, m)
    ensures BoundsOk(n, m)
  {
  }

  /** For a fixed scale the generated number is in the range. */
  lemma ScaledInRange(low: real, width: real, scale: real)
    requires 0.0 <= width && 0.0 <= scale <= 1.0
    ensures low <= Interpolate(low, width, scale) <= low + width
  {
    ShareBetween(scale, width);
  }

  lemma ShareBetween(a: real, b: real)
    requires 0.0 <= a <= 1.0 && 0.0 <= b
    ensures 0.0 <= a * b <= b
  {
    assert (1.0 - a) * b >= 0.0;
    assert (1.0 - a) * b == b - a * b;
  }

  lemma ScaledEnds(low: real, width: real)
    ensures Interpolate(low, width, 0.0) == low && Interpolate(low, width, 1.0) == low + width
  {
  }

  lemma ValuePasses(m: Fields, value: real, whole: bool)
    requires RangeOk(m, whole) && Low(m) <= value <= High(m)
    ensures BoundsOk(if whole then Round(value) as real else value, m)
  {
    RoundMonotone(Low(m), value);
    RoundMonotone(value, High(m));
    if whole {
      BoundsBetween(Round(Low(m)) as real, Round(value) as real, Round(High(m)) as real, m);
    } else {
      BoundsBetween(Low(m), value, High(m), m);
    }
  }

  /** The number the generator gives, as a value between the ends of the range. */
  lemma NumberBetween(m: Fields, scale: real, whole: bool) returns (value: real)
    requires Low(m) <= High(m) && 0.0 <= scale <= 1.0 && IsNumber(m, MINIMUM) && IsNumber(m, MAXIMUM)
    ensures Low(m) <= value <= High(m)
    ensures var n := Number(m, scale, whole);
      && n.Some? && (if whole then n.value.Int? else n.value.Int? || n.value.Float?)
      && Numeric(n.value) == Some(if whole then Round(value) as real else value)
  {
    if Maximum(m).Null? {
      value := Low(m);
    } else {
      value := Interpolate(Low(m), High(m) - Low(m), scale);
      ScaledInRange(Low(m), High(m) - Low(m), scale);
    }
  }

  lemma RangePasses(m: Fields, scale: real, whole: bool)
    requires RangeOk(m, whole) && 0.0 <= scale <= 1.0
    requires IsNumber(m, MINIMUM) && IsNumber(m, MAXIMUM)
    ensures var n := Number(m, scale, whole);
      && n.Some? && (if whole then n.value.Int? else n.value.Int? || n.value.Float?)
      && BoundsOk(Numeric(n.value).value, m)
  {
    var value := NumberBetween(m, scale, whole);
    ValuePasses(m, value, whole);
  }

  /** The ends of the range are generated, so the range has to satisfy the bounds. */
  lemma RangeNeeded(m: Fields, whole: bool)
    requires IsNumber(m, MINIMUM) && IsNumber(m, MAXIMUM)
    requires BoundsOk(Numeric(Number(m, 0.0, whole).value).value, m) && BoundsOk(Numeric(Number(m, 1.0, whole).value).value, m)
    ensures RangeOk(m, whole)
  {
    var low, high := Low(m), High(m);
    ScaledEnds(low, high - low);
    if high < low { RoundMonotone(high, low); }
  }

  // ---- Objects and arrays, for one severity -------------------------------------------

  /** Neither a constant nor an enumeration decides the value. */
  predicate ByKind(schema: Doc, kind: Word) {
    WellTyped(schema) && CONST !in schema.fields && ENUM !in schema.fields && KindOf(schema.fields) == Str(kind)
  }

  predicate ChildrenPass(schema: Doc, severity: real)
    requires WellTyped(schema)
  {
    PROPERTIES in schema.fields ==>
      forall k :: k in schema.fields[PROPERTIES].fields && Wanted(schema.fields, k) ==>
        Passes(schema.fields[PROPERTIES].fields[k], severity, Some(k))
  }

  predicate RequiredDeclared(schema: Doc)
    requires WellTyped(schema)
  {
    forall i :: 0 <= i < |Required(schema.fields).items| ==> HasProperty(schema, Required(schema.fields).items[i].s)
  }

  lemma StubObjectFields(schema: Doc, severity: real)
    requires ByKind(schema, OBJECT) && StubObject(schema, severity).Some?
    ensures var o := StubObject(schema, severity).value;
      && o.Obj? && (forall k :: k in o.fields <==> HasProperty(schema, k) && Wanted(schema.fields, k))
      && forall k :: k in o.fields ==> Stub(PropertyOf(schema, k), severity, Some(k)) == Some(o.fields[k])
  {
  }

  lemma ObjectPasses(schema: Doc, severity: real)
    requires ByKind(schema, OBJECT) && ChildrenPass(schema, severity) && RequiredDeclared(schema)
    ensures var value := StubObject(schema, severity); value.Some? && Accepted(value.value, schema)
  {
    var m := schema.fields;
    assert forall name :: Contains(Required(m), name).Some?;
    var value := StubObject(schema, severity);
    assert value.Some?;
    StubObjectFields(schema, severity);
    KindPasses(value.value, schema);
    if REQUIRED in m {
      forall i | 0 <= i < |m[REQUIRED].items| ensures m[REQUIRED].items[i].s in value.value.fields {
        var name := m[REQUIRED].items[i].s;
        assert Required(m).items[i] == Str(name) && HasProperty(schema, name) && Wanted(m, name);
      }
    }
    assert RequiredOk(value.value.fields, m);
    forall k | k in value.value.fields ensures Accepted(value.value.fields[k], PropertyOf(schema, k)) {
      assert Passes(m[PROPERTIES].fields[k], severity, Some(k));
    }
  }

  lemma ObjectNeeds(schema: Doc, severity: real)
    requires ByKind(schema, OBJECT)
    requires var value := StubObject(schema, severity); value.Some? && Accepted(value.value, schema)
    ensures ChildrenPass(schema, severity) && RequiredDeclared(schema)
  {
    var m, value := schema.fields, StubObject(schema, severity).value;
    StubObjectFields(schema, severity);
    forall i | 0 <= i < |Required(m).items| ensures HasProperty(schema, Required(m).items[i].s) {
      assert Required(m).items[i].s in value.fields;
    }
    if PROPERTIES in m {
      forall k | k in m[PROPERTIES].fields && Wanted(m, k) ensures Passes(m[PROPERTIES].fields[k], severity, Some(k)) {
        assert HasProperty(schema, k) && k in value.fields;
        assert Properties(m) == m[PROPERTIES] && Contains(Properties(m), k) == Some(true);
      }
    }
  }

  predicate ItemsPass(schema: Doc, severity: real)
    requires WellTyped(schema)
  {
    && (MAX_ITEMS in schema.fields ==> Count(schema.fields).value <= schema.fields[MAX_ITEMS].i)
    && (Count(schema.fields).value > 0 && ITEMS in schema.fields ==> Passes(schema.fields[ITEMS], severity, None))
  }

  lemma ArrayPassesIff(schema: Doc, severity: real)
    requires ByKind(schema, ARRAY)
    ensures (var value := StubArray(schema, severity); value.Some? && Accepted(value.value, schema)) <==> ItemsPass(schema, severity)
  {
    var m := schema.fields;
    var n := Count(m).value;
    var value := StubArray(schema, severity);
    assert Accepted(Null, Obj(map[]));
    if value.Some? {
      KindPasses(value.value, schema);
      assert |value.value.items| == n;
      assert LengthOk(n, m) <==> (MAX_ITEMS in m ==> n <= m[MAX_ITEMS].i);
      if n > 0 { assert value.value.items[0] == if ITEMS in m then Stub(m[ITEMS], severity, None).value else Null; }
    }
  }

  // ---- The theorem --------------------------------------------------------------------

  predicate InRange(severity: real) { 0.0 <= severity <= 1.0 }

  /** A satisfiable schema passes for every severity and every field name. */
  lemma {:induction false} SatisfiablePasses(schema: Doc, severity: real, field: Option<Word>)
    requires WellTyped(schema) && Satisfiable(schema) && InRange(severity)
    ensures Passes(schema, severity, field)
    decreases schema
  {
    var m := schema.fields;
    if CONST !in m && ENUM !in m {
      if KindOf(m) == Str(OBJECT) {
        if PROPERTIES in m {
          forall k | k in m[PROPERTIES].fields && Wanted(m, k) ensures Passes(m[PROPERTIES].fields[k], severity, Some(k)) {
            SatisfiablePasses(m[PROPERTIES].fields[k], severity, Some(k));
          }
        }
        ObjectPasses(schema, severity);
      } else if KindOf(m) == Str(ARRAY) {
        if Count(m).value > 0 && ITEMS in m { SatisfiablePasses(m[ITEMS], severity, None); }
        ArrayPassesIff(schema, severity);
      } else {
        ScalarPasses(schema, severity, field);
      }
    } else {
      GivenPassesIff(schema, severity, field);
    }
  }

  lemma ScalarPasses(schema: Doc, severity: real, field: Option<Word>)
    requires WellTyped(schema) && Satisfiable(schema) && InRange(severity)
    requires CONST !in schema.fields && ENUM !in schema.fields
    requires KindOf(schema.fields) != Str(OBJECT) && KindOf(schema.fields) != Str(ARRAY)
    ensures Passes(schema, severity, field)
  {
    var m := schema.fields;
    if KindOf(m) == Str(NUMBER) {
      NumberPasses(schema, Scale(severity, field), false);
    } else if KindOf(m) == Str(INTEGER) {
      NumberPasses(schema, Scale(severity, field), true);
    } else {
      KindIsType(schema);
      KindPasses(Stub(schema, severity, field).value, schema);
    }
  }

  lemma KindIsType(schema: Doc)
    requires WellTyped(schema)
    ensures TYPE in schema.fields ==> IsType(KindOf(schema.fields))
  {
    var m := schema.fields;
    if TYPE in m && m[TYPE].Arr? {
      var kinds := m[TYPE].items;
      FirstNonNullIsListed(kinds);
      var i :| 0 <= i < |kinds| && kinds[i] == FirstNonNull(kinds);
      assert IsType(kinds[i]);
    }
  }

  lemma NumberPasses(schema: Doc, scale: real, whole: bool)
    requires ByKind(schema, if whole then INTEGER else NUMBER) && RangeOk(schema.fields, whole) && 0.0 <= scale <= 1.0
    ensures var n := Number(schema.fields, scale, whole); n.Some? && Accepted(n.value, schema)
  {
    RangePasses(schema.fields, scale, whole);
    var n := Number(schema.fields, scale, whole).value;
    KindPasses(n, schema);
    AcceptedNumber(n, schema);
  }

  lemma AcceptedNumber(n: Doc, schema: Doc)
    requires schema.Obj? && (n.Int? || n.Float?) && ENUM !in schema.fields
    ensures Accepted(n, schema) <==> TypeOk(n, Declared(schema.fields)) && BoundsOk(Numeric(n).value, schema.fields)
  {
  }

  /** A schema that passes for every severity is satisfiable. */
  lemma {:induction false} PassingIsSatisfiable(schema: Doc, field: Option<Word>)
    requires WellTyped(schema) && forall s :: InRange(s) ==> Passes(schema, s, field)
    ensures Satisfiable(schema)
    decreases schema
  {
    var m := schema.fields;
    assert InRange(0.0) && InRange(1.0) && Passes(schema, 0.0, field) && Passes(schema, 1.0, field);
    if CONST !in m && ENUM !in m {
      if KindOf(m) == Str(OBJECT) {
        ObjectNeeds(schema, 0.0);
        if PROPERTIES in m {
          forall k | k in m[PROPERTIES].fields && Wanted(m, k) ensures Satisfiable(m[PROPERTIES].fields[k]) {
            forall s | InRange(s) ensures Passes(m[PROPERTIES].fields[k], s, Some(k)) {
              assert Passes(schema, s, field);
              ObjectNeeds(schema, s);
            }
            PassingIsSatisfiable(m[PROPERTIES].fields[k], Some(k));
          }
        }
      } else if KindOf(m) == Str(ARRAY) {
        ArrayPassesIff(schema, 0.0);
        if Count(m).value > 0 && ITEMS in m {
          forall s | InRange(s) ensures Passes(m[ITEMS], s, None) {
            assert Passes(schema, s, field);
            ArrayPassesIff(schema, s);
          }
          PassingIsSatisfiable(m[ITEMS], None);
        }
      } else {
        ScalarNeeds(schema, field);
      }
    } else if CONST in m || m[ENUM].items != [] {
      GivenPassesIff(schema, 0.0, field);
    }
  }

  lemma ScalarNeeds(schema: Doc, field: Option<Word>)
    requires WellTyped(schema) && CONST !in schema.fields && ENUM !in schema.fields
    requires KindOf(schema.fields) != Str(OBJECT) && KindOf(schema.fields) != Str(ARRAY)
    requires Passes(schema, 0.0, field) && Passes(schema, 1.0, field)
    ensures Satisfiable(schema)
  {
    var m := schema.fields;
    if KindOf(m) == Str(NUMBER) { NumberNeeds(schema, false); }
    if KindOf(m) == Str(INTEGER) { NumberNeeds(schema, true); }
  }

  lemma NumberNeeds(schema: Doc, whole: bool)
    requires ByKind(schema, if whole then INTEGER else NUMBER)
    requires NumberValid(schema, 0.0, whole) && NumberValid(schema, 1.0, whole)
    ensures RangeOk(schema.fields, whole)
  {
    var m := schema.fields;
    AcceptedNumber(Number(m, 0.0, whole).value, schema);
    AcceptedNumber(Number(m, 1.0, whole).value, schema);
    RangeNeeded(m, whole);
  }

  predicate NumberValid(schema: Doc, scale: real, whole: bool)
    requires schema.Obj?
  {
    Number(schema.fields, scale, whole).Some? && Accepted(Number(schema.fields, scale, whole).value, schema)
  }

  /** What the stub generates for a well-typed schema validates under that schema at every
      severity exactly if the schema is satisfiable. */
  lemma StubValidatesIff(schema: Doc, field: Option<Word>)
    requires WellTyped(schema)
    ensures (forall s :: InRange(s) ==> Passes(schema, s, field)) <==> Satisfiable(schema)
  {
    if Satisfiable(schema) {
      forall s | InRange(s) ensures Passes(schema, s, field) { SatisfiablePasses(schema, s, field); }
    } else if forall s :: InRange(s) ==> Passes(schema, s, field) {
      PassingIsSatisfiable(schema, field);
    }
  }

  // ---- What the severity does --------------------------------------------------------------

  /** Rounding goes to a nearest integer, and to the even one of two. */
  lemma RoundIsNearest(r: real)
    ensures r - 0.5 <= Round(r) as real <= r + 0.5
    ensures (Round(r) as real == r - 0.5 || Round(r) as real == r + 0.5) ==> Round(r) % 2 == 0
  {
  }

  /** A number schema with an upper end to its range. */
  predicate HasRange(schema: Doc, whole: bool) {
    ByKind(schema, if whole then INTEGER else NUMBER) && MAXIMUM in schema.fields
  }

  /** The lower end, zero if none is given. */
  function LowEnd(m: Fields): real {
    if MINIMUM in m && Numeric(m[MINIMUM]).Some? then Numeric(m[MINIMUM]).value else 0.0
  }

  /** The number generated for a field; integers are rounded. */
  function Generated(schema: Doc, severity: real, field: Option<Word>): Option<real> {
    var value := Stub(schema, severity, field);
    if value.Some? then Numeric(value.value) else None
  }

  function Rounded(r: real, whole: bool): real { if whole then Round(r) as real else r }

  lemma GeneratedIs(schema: Doc, severity: real, field: Option<Word>, whole: bool)
    requires HasRange(schema, whole)
    ensures var low, high := LowEnd(schema.fields), Numeric(schema.fields[MAXIMUM]).value;
      Generated(schema, severity, field) == Some(Rounded(Interpolate(low, high - low, Scale(severity, field)), whole))
  {
  }

  /** In between the value is the share of the range that the severity says. */
  lemma SeverityIsShare(schema: Doc, severity: real, field: Option<Word>, whole: bool)
    requires HasRange(schema, whole)
    ensures var low, high := LowEnd(schema.fields), Numeric(schema.fields[MAXIMUM]).value;
      var s := if field == Some(CAPACITY_MULTIPLIER) then 1.0 - severity else severity;
      Generated(schema, severity, field) == Some(Rounded(Mix(low, high, s), whole))
  {
    GeneratedIs(schema, severity, field, whole);
    ShareOf(LowEnd(schema.fields), Numeric(schema.fields[MAXIMUM]).value, Scale(severity, field));
  }

  /** The weighted mean of two numbers. */
  function Mix(low: real, high: real, s: real): real { (1.0 - s) * low + s * high }

  lemma ShareOf(low: real, high: real, s: real)
    ensures Interpolate(low, high - low, s) == Mix(low, high, s)
  {
    assert s * (high - low) == s * high - s * low;
    assert (1.0 - s) * low == low - s * low;
  }

  /** Without an upper end the severity does not matter. */
  lemma NoUpperEnd(schema: Doc, severity: real, field: Option<Word>, whole: bool)
    requires ByKind(schema, if whole then INTEGER else NUMBER) && MAXIMUM !in schema.fields
    ensures Generated(schema, severity, field) == Some(Rounded(LowEnd(schema.fields), whole))
  {
  }

  /** The mildest event gets the minimum and the worst the maximum; a capacity multiplier the other
      way round. */
  lemma EndsOfSeverity(schema: Doc, field: Option<Word>, whole: bool)
    requires HasRange(schema, whole)
    ensures var low := Some(Rounded(LowEnd(schema.fields), whole));
      var high := Some(Rounded(Numeric(schema.fields[MAXIMUM]).value, whole));
      && (field != Some(CAPACITY_MULTIPLIER) ==>
            Generated(schema, 0.0, field) == low && Generated(schema, 1.0, field) == high)
      && (field == Some(CAPACITY_MULTIPLIER) ==>
            Generated(schema, 0.0, field) == high && Generated(schema, 1.0, field) == low)
  {
    var low, high := LowEnd(schema.fields), Numeric(schema.fields[MAXIMUM]).value;
    ScaledEnds(low, high - low);
    GeneratedIs(schema, 0.0, field, whole);
    GeneratedIs(schema, 1.0, field, whole);
  }

  lemma InterpolateMonotone(low: real, width: real, a: real, b: real)
    requires 0.0 <= width && a <= b
    ensures Interpolate(low, width, a) <= Interpolate(low, width, b)
  {
    assert (b - a) * width >= 0.0;
    assert (b - a) * width == b * width - a * width;
  }

  lemma RoundedMonotone(a: real, b: real, whole: bool)
    requires a <= b
    ensures Rounded(a, whole) <= Rounded(b, whole)
  {
    RoundMonotone(a, b);
  }

  /** A worse event never gets a smaller value, and never a greater capacity multiplier. */
  lemma SeverityIsMonotone(schema: Doc, field: Option<Word>, whole: bool, mild: real, worse: real)
    requires HasRange(schema, whole) && mild <= worse
    requires LowEnd(schema.fields) <= Numeric(schema.fields[MAXIMUM]).value
    ensures var a, b := Generated(schema, mild, field), Generated(schema, worse, field);
      && a.Some? && b.Some?
      && (field != Some(CAPACITY_MULTIPLIER) ==> a.value <= b.value)
      && (field == Some(CAPACITY_MULTIPLIER) ==> b.value <= a.value)
  {
    var low, high := LowEnd(schema.fields), Numeric(schema.fields[MAXIMUM]).value;
    var x, y := Scale(mild, field), Scale(worse, field);
    GeneratedIs(schema, mild, field, whole);
    GeneratedIs(schema, worse, field, whole);
    var p, q := Interpolate(low, high - low, x), Interpolate(low, high - low, y);
    if field == Some(CAPACITY_MULTIPLIER) {
      InterpolateMonotone(low, high - low, y, x);
      RoundedMonotone(q, p, whole);
    } else {
      InterpolateMonotone(low, high - low, x, y);
      RoundedMonotone(p, q, whole);
    }
  }

  /** In an object, every property that is required and declared, and no other, is generated under
      its own name. */
  lemma PropertiesByName(schema: Doc, severity: real, field: Option<Word>)
    requires ByKind(schema, OBJECT) && Stub(schema, severity, field).Some?
    ensures var o := Stub(schema, severity, field).value;
      && o.Obj?
      && (forall k :: k in o.fields <==>
            HasProperty(schema, k) && REQUIRED in schema.fields && Str(k) in schema.fields[REQUIRED].items)
      && (forall k :: k in o.fields ==> Stub(PropertyOf(schema, k), severity, Some(k)) == Some(o.fields[k]))
  {
    StubObjectFields(schema, severity);
  }

  /** So the ends of the range show up in the object, each under the name of its property. */
  lemma EndsInObject(schema: Doc, severity: real, field: Option<Word>, k: Word, whole: bool)
    requires ByKind(schema, OBJECT) && Stub(schema, severity, field).Some? && (severity == 0.0 || severity == 1.0)
    requires HasProperty(schema, k) && REQUIRED in schema.fields && Str(k) in schema.fields[REQUIRED].items
    requires HasRange(PropertyOf(schema, k), whole)
    ensures var o, m := Stub(schema, severity, field).value, PropertyOf(schema, k).fields;
      && o.Obj? && k in o.fields
      && var worst := (severity == 1.0) == (k != CAPACITY_MULTIPLIER);
         Numeric(o.fields[k]) == Some(Rounded(if worst then Numeric(m[MAXIMUM]).value else LowEnd(m), whole))
  {
    PropertiesByName(schema, severity, field);
    EndsOfSeverity(PropertyOf(schema, k), Some(k), whole);
  }

  /** Of several types the first that is not null is meant. */
  lemma KindIsFirst(m: Fields, i: nat)
    requires TYPE in m && m[TYPE].Arr? && i < |m[TYPE].items| && m[TYPE].items[i] != Str(NULL)
    requires forall j :: 0 <= j < i ==> m[TYPE].items[j] == Str(NULL)
    ensures KindOf(m) == m[TYPE].items[i]
  {
    FirstIs(m[TYPE].items, i);
  }

  lemma {:induction false} FirstIs(kinds: seq<Doc>, i: nat)
    requires i < |kinds| && kinds[i] != Str(NULL) && forall j :: 0 <= j < i ==> kinds[j] == Str(NULL)
    ensures FirstNonNull(kinds) == kinds[i]
  {
    if i > 0 { FirstIs(kinds[1..], i - 1); }
  }

  /** The other kinds: a constant is itself, an enumeration its first value, a truth value is whether
      the severity is at least one half, a text is `stub`, and an array repeats its item as often
      as it has to. */
  lemma OtherKinds(schema: Doc, severity: real, field: Option<Word>)
    requires WellTyped(schema)
    ensures var m, value := schema.fields, Stub(schema, severity, field);
      && (CONST in m ==> value == Some(m[CONST]))
      && (CONST !in m && ENUM in m && m[ENUM].items != [] ==> value == Some(m[ENUM].items[0]))
      && (ByKind(schema, BOOLEAN) ==> value == Some(Bool(severity >= 0.5)))
      && (ByKind(schema, STRING) ==> value.Some? && value.value.Str? && Spelling(value.value.s) == "stub")
      && (ByKind(schema, NULL) ==> value == Some(Null))
      && (ByKind(schema, ARRAY) && value.Some? ==>
            && value.value.Arr? && |value.value.items| == (if MIN_ITEMS in m then m[MIN_ITEMS].i else 0)
            && forall i :: 0 <= i < |value.value.items| ==>
                 Some(value.value.items[i]) == if ITEMS in m then Stub(m[ITEMS], severity, None) else Some(Null))
  {
  }
}
