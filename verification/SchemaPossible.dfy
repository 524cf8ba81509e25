/** Exactly which schemas accept anything, read off their keywords. */
module SchemaPossible {
  import opened Wrappers
  import opened Sets
  import opened Schema

  // ---- Objects ------------------------------------------------------------------------

  predicate Forbids(m: Fields) { ADDITIONAL_PROPERTIES in m && m[ADDITIONAL_PROPERTIES] == Bool(false) }

  /** A key beyond the declared ones, with whatever value. */
  predicate Free(m: Fields, k: Word) { !Forbids(m) && Contains(Properties(m), k) == Some(false) }

  /** Keys beyond the declared ones are let through. */
  predicate Loose(m: Fields) {
    !Forbids(m) && (Properties(m).Obj? || Properties(m).Arr? || Properties(m).Str?)
  }

  /** The keys an object must have; None where validation raises. */
  function Demanded(m: Fields): Option<set<Word>> {
    if REQUIRED !in m then Some({})
    else
      match m[REQUIRED]
      case Arr(xs) =>
        if forall i :: 0 <= i < |xs| ==> xs[i].Str? then Some(set i | 0 <= i < |xs| && xs[i].Str? :: xs[i].s) else None
      case Str(s) => Some(set i | 0 <= i < |Spelling(s)| :: Other([Spelling(s)[i]]))
      case Obj(r) => Some(r.Keys)
      case _ => None
  }

  lemma DemandedIff(payload: Fields, m: Fields)
    ensures RequiredOk(payload, m) <==> Demanded(m).Some? && Demanded(m).value <= payload.Keys
  {
    if RequiredOk(payload, m) {
      forall k | k in Demanded(m).value ensures k in payload {
      }
    }
    if REQUIRED in m && m[REQUIRED].Arr? && Demanded(m).Some? && Demanded(m).value <= payload.Keys {
      var xs := m[REQUIRED].items;
      forall i | 0 <= i < |xs| ensures xs[i].s in payload { assert xs[i].s in Demanded(m).value; }
    }
    if REQUIRED in m && m[REQUIRED].Str? && Demanded(m).Some? && Demanded(m).value <= payload.Keys {
      var s := Spelling(m[REQUIRED].s);
      forall i | 0 <= i < |s| ensures Other([s[i]]) in payload { assert Other([s[i]]) in Demanded(m).value; }
    }
  }

  predicate AllowsObject(m: Fields) { TypeOk(Obj(map[]), Declared(m)) }

  predicate AllowsArray(m: Fields) { TypeOk(Arr([]), Declared(m)) }

  lemma SameKind(p: Doc, q: Doc, kinds: seq<Doc>)
    requires (p.Obj? && q.Obj?) || (p.Arr? && q.Arr?)
    requires TypeOk(p, kinds)
    ensures TypeOk(q, kinds)
  {
    if kinds != [] {
      var i :| 0 <= i < |kinds| && Matches(p, kinds[i]) && forall j :: 0 <= j < i ==> Hashable(kinds[j]);
      assert Matches(q, kinds[i]);
    }
  }

  /** A value that may stand under a key. */
  predicate ValueOk(schema: Doc, k: Word, value: Doc)
    requires schema.Obj?
  {
    (HasProperty(schema, k) && Accepted(value, PropertyOf(schema, k))) || Free(schema.fields, k)
  }

  lemma AcceptedObject(p: Doc, schema: Doc)
    requires schema.Obj? && p.Obj?
    ensures Accepted(p, schema) <==>
      && EnumOk(p, schema.fields) && AllowsObject(schema.fields) && RequiredOk(p.fields, schema.fields)
      && forall k :: k in p.fields ==> ValueOk(schema, k, p.fields[k])
  {
    if Accepted(p, schema) { SameKind(p, Obj(map[]), Declared(schema.fields)); }
    if AllowsObject(schema.fields) { SameKind(Obj(map[]), p, Declared(schema.fields)); }
  }

  lemma AcceptedArray(p: Doc, schema: Doc)
    requires schema.Obj? && p.Arr?
    ensures Accepted(p, schema) <==>
      && EnumOk(p, schema.fields) && AllowsArray(schema.fields) && LengthOk(|p.items|, schema.fields)
      && forall i :: 0 <= i < |p.items| ==> Accepted(p.items[i], Items(schema.fields))
  {
    if Accepted(p, schema) { SameKind(p, Arr([]), Declared(schema.fields)); }
    if AllowsArray(schema.fields) { SameKind(Arr([]), p, Declared(schema.fields)); }
  }

  // ---- Loose keys ---------------------------------------------------------------------

  function As(n: nat): string { if n == 0 then "" else As(n - 1) + "a" }

  lemma {:induction false} AsLength(n: nat)
    ensures |As(n)| == n
  {
    if n > 0 { AsLength(n - 1); }
  }

  /** Beyond some length no word of `a`s is in a finite set. */
  lemma {:induction false} LongWordsAreNew(s: set<Word>) returns (n: nat)
    ensures forall k: nat :: k >= n ==> Other(As(k)) !in s
    decreases |s|
  {
    n := 0;
    if s != {} {
      var x :| x in s;
      n := LongWordsAreNew(s - {x});
      if x.Other? && |x.text| >= n { n := |x.text| + 1; }
      forall k: nat | k >= n ensures Other(As(k)) !in s { AsLength(k); }
    }
  }

  lemma {:induction false} WithinIsShorter(part: string, whole: string)
    requires Schema.Within(part, whole)
    ensures |part| <= |whole|
  {
    if !(part <= whole) { WithinIsShorter(part, whole[1..]); }
  }

  lemma LooseHasFree(m: Fields) returns (k: Word)
    requires Loose(m)
    ensures Free(m, k)
  {
    match Properties(m)
    case Obj(props) =>
      var n := LongWordsAreNew(props.Keys);
      k := Other(As(n));
    case Arr(xs) =>
      var words := set i | 0 <= i < |xs| && xs[i].Str? :: xs[i].s;
      var n := LongWordsAreNew(words);
      k := Other(As(n));
    case Str(s) =>
      var n := |Spelling(s)| + 1;
      k := Other(As(n));
      AsLength(n);
      if Schema.Within(As(n), Spelling(s)) { WithinIsShorter(As(n), Spelling(s)); }
    case _ =>
  }

  // ---- Numbers within bounds ---------------------------------------------------------------

  function Limit(m: Fields, key: Word): Option<real> { if key in m then Numeric(m[key]) else None }

  predicate BoundsAreNumbers(m: Fields) {
    && (MINIMUM in m ==> Numeric(m[MINIMUM]).Some?) && (MAXIMUM in m ==> Numeric(m[MAXIMUM]).Some?)
    && (EXCLUSIVE_MINIMUM in m ==> Numeric(m[EXCLUSIVE_MINIMUM]).Some?)
    && (EXCLUSIVE_MAXIMUM in m ==> Numeric(m[EXCLUSIVE_MAXIMUM]).Some?)
  }

  /** Some real number is within the bounds: each lower one leaves room below each upper one. */
  predicate RealPossible(m: Fields) {
    && BoundsAreNumbers(m)
    && (MINIMUM in m && MAXIMUM in m ==> Limit(m, MINIMUM).value <= Limit(m, MAXIMUM).value)
    && (MINIMUM in m && EXCLUSIVE_MAXIMUM in m ==> Limit(m, MINIMUM).value < Limit(m, EXCLUSIVE_MAXIMUM).value)
    && (EXCLUSIVE_MINIMUM in m && MAXIMUM in m ==> Limit(m, EXCLUSIVE_MINIMUM).value < Limit(m, MAXIMUM).value)
    && (EXCLUSIVE_MINIMUM in m && EXCLUSIVE_MAXIMUM in m ==>
          Limit(m, EXCLUSIVE_MINIMUM).value < Limit(m, EXCLUSIVE_MAXIMUM).value)
  }

  function Greater(a: Option<real>, b: Option<real>): Option<real> {
    if a.None? then b else if b.None? then a else if a.value < b.value then b else a
  }

  function Lesser(a: Option<real>, b: Option<real>): Option<real> {
    if a.None? then b else if b.None? then a else if b.value < a.value then b else a
  }

  lemma RealPossibleIff(m: Fields)
    ensures RealPossible(m) <==> exists r: real :: BoundsOk(r, m)
  {
    if RealPossible(m) {
      var low := Greater(Limit(m, MINIMUM), Limit(m, EXCLUSIVE_MINIMUM));
      var high := Lesser(Limit(m, MAXIMUM), Limit(m, EXCLUSIVE_MAXIMUM));
      var r := if low.Some? && high.Some? then (low.value + high.value) / 2.0
               else if low.Some? then low.value + 1.0 else if high.Some? then high.value - 1.0 else 0.0;
      assert BoundsOk(r, m);
    }
  }

  function Ceil(r: real): int { -((-r).Floor) }

  /** The least whole number above the lower bounds; without any, the greatest one below the upper
      bounds. */
  function WholeCandidate(m: Fields): int {
    var least := if Limit(m, MINIMUM).Some? then Some(Ceil(Limit(m, MINIMUM).value)) else None;
    var above := if Limit(m, EXCLUSIVE_MINIMUM).Some? then Some(Limit(m, EXCLUSIVE_MINIMUM).value.Floor + 1) else None;
    var most := if Limit(m, MAXIMUM).Some? then Some(Limit(m, MAXIMUM).value.Floor) else None;
    var below := if Limit(m, EXCLUSIVE_MAXIMUM).Some? then Some(Ceil(Limit(m, EXCLUSIVE_MAXIMUM).value) - 1) else None;
    if least.Some? || above.Some? then
      if above.None? || (least.Some? && above.value <= least.value) then least.value else above.value
    else if most.Some? || below.Some? then
      if below.None? || (most.Some? && most.value <= below.value) then most.value else below.value
    else 0
  }

  lemma WholeNeighbours(r: real, i: int)
    ensures r <= i as real <==> Ceil(r) <= i
    ensures r < i as real <==> r.Floor + 1 <= i
    ensures i as real <= r <==> i <= r.Floor
    ensures i as real < r <==> i <= Ceil(r) - 1
  {
  }

  predicate WholePossible(m: Fields) { BoundsOk(WholeCandidate(m) as real, m) }

  lemma CandidateBounds(m: Fields, i: int)
    requires BoundsAreNumbers(m)
    ensures BoundsOk(i as real, m) <==>
      && (MINIMUM in m ==> Ceil(Limit(m, MINIMUM).value) <= i)
      && (EXCLUSIVE_MINIMUM in m ==> Limit(m, EXCLUSIVE_MINIMUM).value.Floor + 1 <= i)
      && (MAXIMUM in m ==> i <= Limit(m, MAXIMUM).value.Floor)
      && (EXCLUSIVE_MAXIMUM in m ==> i <= Ceil(Limit(m, EXCLUSIVE_MAXIMUM).value) - 1)
  {
    if MINIMUM in m { WholeNeighbours(Limit(m, MINIMUM).value, i); }
    if MAXIMUM in m { WholeNeighbours(Limit(m, MAXIMUM).value, i); }
    if EXCLUSIVE_MINIMUM in m { WholeNeighbours(Limit(m, EXCLUSIVE_MINIMUM).value, i); }
    if EXCLUSIVE_MAXIMUM in m { WholeNeighbours(Limit(m, EXCLUSIVE_MAXIMUM).value, i); }
  }

  /** Some whole number is within the bounds exactly if that one is. */
  lemma WholePossibleIf(m: Fields, i: int)
    requires BoundsOk(i as real, m)
    ensures WholePossible(m)
  {
    CandidateBounds(m, i);
    CandidateBounds(m, WholeCandidate(m));
  }

  // ---- What a schema accepts at all -----------------------------------------------------

  predicate IsScalar(p: Doc) { !p.Obj? && !p.Arr? }

  /** The empty text, the shortest there is. */
  const EMPTY: Doc := Str(Other(""))

  predicate TextPossible(m: Fields) { TypeOk(EMPTY, Declared(m)) && AtMost(m, MAX_LENGTH, 0.0) }

  /** A value of some declared scalar type is within the bounds and not too long. */
  predicate ScalarPossible(m: Fields) {
    || TypeOk(Null, Declared(m)) || TypeOk(Bool(true), Declared(m)) || TextPossible(m)
    || (TypeOk(Int(0), Declared(m)) && WholePossible(m))
    || (TypeOk(Float(0.0), Declared(m)) && RealPossible(m))
  }

  /** A number that may be written as an integer, as a float, or as a truth value. */
  predicate NumberPossible(r: real, m: Fields) {
    || (r == r.Floor as real && TypeOk(Int(0), Declared(m)) && BoundsOk(r, m))
    || (TypeOk(Float(0.0), Declared(m)) && BoundsOk(r, m))
    || ((r == 0.0 || r == 1.0) && TypeOk(Bool(true), Declared(m)))
  }

  /** Something equal to `x`, in Python's sense, is accepted. */
  predicate Variant(x: Doc, schema: Doc)
    decreases x
  {
    && schema.Obj? && EnumOk(x, schema.fields)
    && match x
       case Null => TypeOk(Null, Declared(schema.fields))
       case Str(s) => TypeOk(EMPTY, Declared(schema.fields)) && AtMost(schema.fields, MAX_LENGTH, |Spelling(s)| as real)
       case Arr(xs) =>
         && AllowsArray(schema.fields) && LengthOk(|xs|, schema.fields)
         && forall i :: 0 <= i < |xs| ==> Variant(xs[i], Items(schema.fields))
       case Obj(f) =>
         && AllowsObject(schema.fields) && RequiredOk(f, schema.fields)
         && forall k :: k in f ==> if HasProperty(schema, k) then Variant(f[k], PropertyOf(schema, k)) else Free(schema.fields, k)
       case _ => NumberPossible(Numeric(x).value, schema.fields)
  }

  /** Some listed value is accepted, as listed or in an equal form. A text as the list admits its
      parts, the shortest of which is empty. */
  predicate ListedPossible(schema: Doc)
    requires schema.Obj? && ENUM in schema.fields
  {
    match schema.fields[ENUM]
    case Arr(xs) => exists i :: 0 <= i < |xs| && Variant(xs[i], schema)
    case Obj(r) => exists w :: w in r && Accepted(Str(w), schema)
    case Str(_) => TextPossible(schema.fields)
    case _ => false
  }

  /** An array that is not empty may have this length, among others. */
  predicate LengthPossible(m: Fields) {
    if MAX_ITEMS in m then Cap(m) >= 1 && LengthOk(Cap(m), m) else MIN_ITEMS in m ==> Numeric(m[MIN_ITEMS]).Some?
  }

  /** Something is accepted. */
  predicate Possible(schema: Doc)
    decreases schema, 2
  {
    && schema.Obj?
    && if ENUM in schema.fields then ListedPossible(schema)
       else ScalarPossible(schema.fields) || ObjectPossible(schema) || ArrayPossible(schema)
  }

  /** An object is accepted: every key it must have can have a value. */
  predicate ObjectPossible(schema: Doc)
    requires schema.Obj?
    decreases schema, 1
  {
    && AllowsObject(schema.fields) && Demanded(schema.fields).Some?
    && forall k :: k in Demanded(schema.fields).value ==>
         (HasProperty(schema, k) && Possible(PropertyOf(schema, k))) || Free(schema.fields, k)
  }

  /** An array with an item is accepted. */
  predicate ItemPossible(schema: Doc)
    requires schema.Obj?
    decreases schema, 0
  {
    && AllowsArray(schema.fields) && LengthPossible(schema.fields)
    && (ITEMS in schema.fields ==> Possible(schema.fields[ITEMS]))
  }

  predicate ArrayPossible(schema: Doc)
    requires schema.Obj?
    decreases schema, 1
  {
    (AllowsArray(schema.fields) && LengthOk(0, schema.fields)) || ItemPossible(schema)
  }

  // ---- Scalars ---------------------------------------------------------------------------

  /** The type check looks at the kind of a scalar only. */
  lemma ScalarKind(p: Doc, kinds: seq<Doc>)
    ensures p.Null? ==> (TypeOk(p, kinds) <==> TypeOk(Null, kinds))
    ensures p.Bool? ==> (TypeOk(p, kinds) <==> TypeOk(Bool(true), kinds))
    ensures p.Str? ==> (TypeOk(p, kinds) <==> TypeOk(EMPTY, kinds))
    ensures p.Int? ==> (TypeOk(p, kinds) <==> TypeOk(Int(0), kinds))
    ensures p.Float? ==> (TypeOk(p, kinds) <==> TypeOk(Float(0.0), kinds))
  {
    var q := match p
      case Null => Null
      case Bool(_) => Bool(true)
      case Str(_) => EMPTY
      case Int(_) => Int(0)
      case Float(_) => Float(0.0)
      case _ => p;
    assert forall i :: 0 <= i < |kinds| ==> Matches(p, kinds[i]) == Matches(q, kinds[i]);
  }

  lemma ScalarIsPossible(p: Doc, m: Fields)
    requires IsScalar(p) && TypeOk(p, Declared(m)) && ScalarOk(p, m)
    ensures ScalarPossible(m)
  {
    ScalarKind(p, Declared(m));
    match p
    case Int(i) => WholePossibleIf(m, i);
    case Float(r) => RealPossibleIff(m);
    case _ =>
  }

  lemma ScalarWitness(schema: Doc) returns (p: Doc)
    requires schema.Obj? && ENUM !in schema.fields && ScalarPossible(schema.fields)
    ensures Accepted(p, schema)
  {
    var m := schema.fields;
    if TypeOk(Null, Declared(m)) {
      p := Null;
    } else if TypeOk(Bool(true), Declared(m)) {
      p := Bool(true);
    } else if TextPossible(m) {
      p := EMPTY;
    } else if TypeOk(Int(0), Declared(m)) && WholePossible(m) {
      p := Int(WholeCandidate(m));
      ScalarKind(p, Declared(m));
    } else {
      RealPossibleIff(m);
      var r: real :| BoundsOk(r, m);
      p := Float(r);
      ScalarKind(p, Declared(m));
    }
  }

  ghost function Sample(schema: Doc): Doc {
    if exists p :: Accepted(p, schema) then
      var p :| Accepted(p, schema);
      p
    else Null
  }

  lemma ItemAccepted(m: Fields)
    requires ITEMS in m ==> exists p :: Accepted(p, m[ITEMS])
    ensures Accepted(Sample(Items(m)), Items(m))
  {
    if ITEMS !in m {
      EmptySchemaAccepts(Null);
      assert Accepted(Null, Items(m));
    }
  }

  // ---- Enumerations ------------------------------------------------------------------------

  lemma {:induction false} EqualSymmetric(a: Doc, b: Doc)
    requires Equal(a, b)
    ensures Equal(b, a)
    decreases a
  {
    match a
    case Obj(m) => forall k | k in m ensures Equal(b.fields[k], m[k]) { EqualSymmetric(m[k], b.fields[k]); }
    case Arr(xs) => forall i | 0 <= i < |xs| ensures Equal(b.items[i], xs[i]) { EqualSymmetric(xs[i], b.items[i]); }
    case _ =>
  }

  lemma {:induction false} EqualTransitive(a: Doc, b: Doc, c: Doc)
    requires Equal(a, b) && Equal(b, c)
    ensures Equal(a, c)
    decreases a
  {
    match a
    case Obj(m) =>
      forall k | k in m ensures Equal(m[k], c.fields[k]) { EqualTransitive(m[k], b.fields[k], c.fields[k]); }
    case Arr(xs) =>
      forall i | 0 <= i < |xs| ensures Equal(xs[i], c.items[i]) { EqualTransitive(xs[i], b.items[i], c.items[i]); }
    case _ =>
  }

  /** An enumeration cannot tell equal values apart. */
  lemma EqualListed(p: Doc, x: Doc, m: Fields)
    requires Equal(p, x) && EnumOk(p, m)
    ensures EnumOk(x, m)
  {
    EqualSymmetric(p, x);
    if ENUM in m && m[ENUM].Arr? {
      var xs := m[ENUM].items;
      var i :| 0 <= i < |xs| && Equal(p, xs[i]);
      EqualTransitive(x, p, xs[i]);
    }
  }

  ghost predicate IsVariant(p: Doc, x: Doc, schema: Doc) { Equal(p, x) && Accepted(p, schema) }

  lemma NumberVariant(p: Doc, x: Doc, schema: Doc)
    requires IsVariant(p, x, schema) && Numeric(x).Some?
    ensures Variant(x, schema)
  {
    EqualListed(p, x, schema.fields);
    ScalarKind(p, Declared(schema.fields));
  }

  lemma {:induction false} AcceptedVariant(p: Doc, x: Doc, schema: Doc)
    requires IsVariant(p, x, schema)
    ensures Variant(x, schema)
    decreases p
  {
    EqualListed(p, x, schema.fields);
    match x
    case Null => ScalarKind(p, Declared(schema.fields));
    case Str(_) => ScalarKind(p, Declared(schema.fields));
    case Arr(xs) =>
      AcceptedArray(p, schema);
      forall i | 0 <= i < |xs| ensures Variant(xs[i], Items(schema.fields)) {
        AcceptedVariant(p.items[i], xs[i], Items(schema.fields));
      }
    case Obj(f) =>
      AcceptedObject(p, schema);
      DemandedIff(p.fields, schema.fields);
      DemandedIff(f, schema.fields);
      forall k | k in f ensures if HasProperty(schema, k) then Variant(f[k], PropertyOf(schema, k)) else Free(schema.fields, k) {
        assert ValueOk(schema, k, p.fields[k]);
        if HasProperty(schema, k) { AcceptedVariant(p.fields[k], f[k], PropertyOf(schema, k)); }
      }
    case _ => NumberVariant(p, x, schema);
  }

  lemma NumberHasVariant(x: Doc, schema: Doc) returns (p: Doc)
    requires Variant(x, schema) && Numeric(x).Some?
    ensures IsVariant(p, x, schema)
  {
    var r, m := Numeric(x).value, schema.fields;
    if r == r.Floor as real && TypeOk(Int(0), Declared(m)) && BoundsOk(r, m) {
      p := Int(r.Floor);
    } else if TypeOk(Float(0.0), Declared(m)) && BoundsOk(r, m) {
      p := Float(r);
    } else {
      p := Bool(r == 1.0);
    }
    ScalarKind(p, Declared(m));
    ListedEqual(p, x, m);
  }

  lemma ListedEqual(p: Doc, x: Doc, m: Fields)
    requires Equal(p, x) && EnumOk(x, m)
    ensures EnumOk(p, m)
  {
    EqualSymmetric(p, x);
    EqualListed(x, p, m);
  }

  lemma {:induction false} VariantIsAccepted(x: Doc, schema: Doc) returns (p: Doc)
    requires Variant(x, schema)
    ensures IsVariant(p, x, schema)
    decreases x
  {
    match x
    case Null => p := Null;
    case Str(s) =>
      p := x;
      ScalarKind(p, Declared(schema.fields));
    case Arr(xs) =>
      var items := ItemVariants(x, schema, |xs|);
      p := Arr(items);
      ListedEqual(p, x, schema.fields);
      AcceptedArray(p, schema);
    case Obj(f) =>
      var fields := FieldVariants(x, schema, f.Keys);
      p := Obj(fields);
      ListedEqual(p, x, schema.fields);
      DemandedIff(f, schema.fields);
      DemandedIff(fields, schema.fields);
      AcceptedObject(p, schema);
    case _ => p := NumberHasVariant(x, schema);
  }

  lemma {:induction false} ItemVariants(x: Doc, schema: Doc, n: nat) returns (items: seq<Doc>)
    requires Variant(x, schema) && x.Arr? && n <= |x.items|
    ensures |items| == n && forall i :: 0 <= i < n ==> IsVariant(items[i], x.items[i], Items(schema.fields))
    decreases x, n
  {
    items := [];
    if n > 0 {
      items := ItemVariants(x, schema, n - 1);
      var last := VariantIsAccepted(x.items[n - 1], Items(schema.fields));
      items := items + [last];
    }
  }

  lemma {:induction false} FieldVariants(x: Doc, schema: Doc, keys: set<Word>) returns (fields: Fields)
    requires Variant(x, schema) && x.Obj? && keys <= x.fields.Keys
    ensures fields.Keys == keys
    ensures forall k :: k in keys ==> Equal(fields[k], x.fields[k]) && ValueOk(schema, k, fields[k])
    decreases x, |keys|
  {
    fields := map[];
    if keys != {} {
      var k :| k in keys;
      fields := FieldVariants(x, schema, keys - {k});
      var value := x.fields[k];
      if HasProperty(schema, k) {
        value := VariantIsAccepted(x.fields[k], PropertyOf(schema, k));
      } else {
        EqualItself(value);
      }
      fields := fields[k := value];
    }
  }

  lemma ListedWitness(schema: Doc) returns (p: Doc)
    requires schema.Obj? && ENUM in schema.fields && ListedPossible(schema)
    ensures Accepted(p, schema)
  {
    match schema.fields[ENUM]
    case Arr(xs) =>
      var i :| 0 <= i < |xs| && Variant(xs[i], schema);
      p := VariantIsAccepted(xs[i], schema);
    case Obj(r) =>
      var w :| w in r && Accepted(Str(w), schema);
      p := Str(w);
    case _ => p := EMPTY;
  }

  lemma ListedIsPossible(p: Doc, schema: Doc)
    requires Accepted(p, schema) && ENUM in schema.fields
    ensures ListedPossible(schema)
  {
    match schema.fields[ENUM]
    case Arr(xs) =>
      var i :| 0 <= i < |xs| && Equal(p, xs[i]);
      AcceptedVariant(p, xs[i], schema);
    case Str(_) => ScalarKind(p, Declared(schema.fields));
    case _ =>
  }

  // ---- Witnesses ----------------------------------------------------------------------------

  ghost predicate Witnessed(schema: Doc) { Possible(schema) ==> exists p :: Accepted(p, schema) }

  /** An accepted object with just the keys it must have. */
  lemma ObjectWitness(schema: Doc) returns (fields: Fields)
    requires schema.Obj? && ENUM !in schema.fields && ObjectPossible(schema)
    requires forall k :: HasProperty(schema, k) ==> Witnessed(PropertyOf(schema, k))
    ensures Accepted(Obj(fields), schema)
  {
    var keys := Demanded(schema.fields).value;
    fields := map k | k in keys :: if HasProperty(schema, k) then Sample(PropertyOf(schema, k)) else Null;
    DemandedIff(fields, schema.fields);
    AcceptedObject(Obj(fields), schema);
  }

  /** An accepted array of `n` times the same item. */
  lemma ArrayWitness(schema: Doc, n: nat, item: Doc)
    requires schema.Obj? && ENUM !in schema.fields && AllowsArray(schema.fields) && LengthOk(n, schema.fields)
    requires n > 0 ==> Accepted(item, Items(schema.fields))
    ensures Accepted(Arr(seq(n, _ => item)), schema)
  {
    AcceptedArray(Arr(seq(n, _ => item)), schema);
  }

  /** A length above `least` that an array may have when no limit is set. */
  lemma LongEnough(m: Fields, least: nat) returns (n: nat)
    requires LengthPossible(m) && MAX_ITEMS !in m
    ensures n > least && LengthOk(n, m)
  {
    n := least + 1;
    if MIN_ITEMS in m && Numeric(m[MIN_ITEMS]).value > n as real { n := Numeric(m[MIN_ITEMS]).value.Floor + 1; }
  }

  lemma {:induction false} PossibleHasWitness(schema: Doc)
    requires Possible(schema)
    ensures exists p :: Accepted(p, schema)
    decreases schema
  {
    var m := schema.fields;
    if ENUM in m {
      var p := ListedWitness(schema);
    } else {
      forall k | HasProperty(schema, k) ensures Witnessed(PropertyOf(schema, k)) {
        if Possible(PropertyOf(schema, k)) { PossibleHasWitness(PropertyOf(schema, k)); }
      }
      if ScalarPossible(m) {
        var p := ScalarWitness(schema);
      } else if ObjectPossible(schema) {
        var fields := ObjectWitness(schema);
      } else if AllowsArray(m) && LengthOk(0, m) {
        ArrayWitness(schema, 0, Null);
      } else {
        assert ArrayPossible(schema);
        assert ItemPossible(schema);
        if ITEMS in m { PossibleHasWitness(m[ITEMS]); }
        ItemAccepted(m);
        var n := Cap(m);
        if MAX_ITEMS !in m { n := LongEnough(m, 0); }
        ArrayWitness(schema, n, Sample(Items(m)));
      }
    }
  }

  lemma FloorIsBetween(n: nat, r: real)
    requires n as real <= r
    ensures n <= r.Floor && r.Floor as real <= r
  {
  }

  lemma LengthIsPossible(m: Fields, n: nat)
    requires n > 0 && LengthOk(n, m)
    ensures LengthPossible(m)
  {
    if MAX_ITEMS in m {
      var most := Numeric(m[MAX_ITEMS]).value;
      FloorIsBetween(n, most);
      assert Cap(m) == most.Floor >= n;
      assert AtLeast(m, MIN_ITEMS, Cap(m) as real) && AtMost(m, MAX_ITEMS, Cap(m) as real);
    }
  }

  lemma {:induction false} AcceptedIsPossible(p: Doc, schema: Doc)
    requires Accepted(p, schema)
    ensures Possible(schema)
    ensures ENUM !in schema.fields && p.Obj? ==> ObjectPossible(schema)
    ensures ENUM !in schema.fields && p.Arr? && p.items != [] ==> ItemPossible(schema)
    decreases p
  {
    if ENUM in schema.fields {
      ListedIsPossible(p, schema);
    } else {
      if p.Obj? {
        AcceptedObject(p, schema);
        DemandedIff(p.fields, schema.fields);
        forall k | k in Demanded(schema.fields).value
          ensures (HasProperty(schema, k) && Possible(PropertyOf(schema, k))) || Free(schema.fields, k)
        {
          assert ValueOk(schema, k, p.fields[k]);
          if !Free(schema.fields, k) { AcceptedIsPossible(p.fields[k], PropertyOf(schema, k)); }
        }
      } else if p.Arr? {
        AcceptedArray(p, schema);
        if p.items != [] {
          LengthIsPossible(schema.fields, |p.items|);
          AcceptedIsPossible(p.items[0], Items(schema.fields));
        }
      } else {
        ScalarIsPossible(p, schema.fields);
      }
    }
  }

  /** A schema accepts something exactly if it is possible. */
  lemma PossibleIff(schema: Doc)
    ensures Possible(schema) <==> exists p :: Accepted(p, schema)
  {
    if Possible(schema) { PossibleHasWitness(schema); }
    if p :| Accepted(p, schema) { AcceptedIsPossible(p, schema); }
  }
}
