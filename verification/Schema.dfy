/** The restricted JSON Schema vocabulary: admission of a client's schema and validation of a
    payload against it, on JSON documents as they arrive. */
module Schema {
  import opened Wrappers
  import opened Sets

  // ---- Documents ----------------------------------------------------------------------

  /** A string of a document: one of those the schema language gives a meaning, or any other. */
  datatype Word =
    | SCHEMA | ID | DEFS | REF | TYPE | PROPERTIES | REQUIRED | ADDITIONAL_PROPERTIES | ITEMS
    | MIN_ITEMS | MAX_ITEMS | MIN_LENGTH | MAX_LENGTH | MINIMUM | MAXIMUM
    | EXCLUSIVE_MINIMUM | EXCLUSIVE_MAXIMUM | ENUM | CONST | DESCRIPTION | TITLE | FORMAT
    | UNIQUE_ITEMS | ANY_OF | ONE_OF | ALL_OF
    | DATE | DATE_TIME | DURATION | UUID
    | OBJECT | ARRAY | STRING | NUMBER | INTEGER | BOOLEAN | NULL
    | CAPACITY_MULTIPLIER | STUB
    | Other(text: string)

  /** A JSON document whose strings are words. */
  datatype Doc =
    | Null
    | Bool(b: bool)
    | Int(i: int)
    | Float(r: real)
    | Str(s: Word)
    | Arr(items: seq<Doc>)
    | Obj(fields: map<Word, Doc>)

  /** How a word is spelled. */
  function Spelling(w: Word): string {
    match w
    case SCHEMA => "$schema" case ID => "$id" case DEFS => "$defs" case REF => "$ref" case TYPE => "type"
    case PROPERTIES => "properties" case REQUIRED => "required" case ADDITIONAL_PROPERTIES => "additionalProperties"
    case ITEMS => "items" case MIN_ITEMS => "minItems" case MAX_ITEMS => "maxItems"
    case MIN_LENGTH => "minLength" case MAX_LENGTH => "maxLength"
    case MINIMUM => "minimum" case MAXIMUM => "maximum"
    case EXCLUSIVE_MINIMUM => "exclusiveMinimum" case EXCLUSIVE_MAXIMUM => "exclusiveMaximum"
    case ENUM => "enum" case CONST => "const" case DESCRIPTION => "description" case TITLE => "title"
    case FORMAT => "format" case UNIQUE_ITEMS => "uniqueItems"
    case ANY_OF => "anyOf" case ONE_OF => "oneOf" case ALL_OF => "allOf"
    case DATE => "date" case DATE_TIME => "date-time" case DURATION => "duration" case UUID => "uuid"
    case OBJECT => "object" case ARRAY => "array" case STRING => "string" case NUMBER => "number"
    case INTEGER => "integer" case BOOLEAN => "boolean" case NULL => "null"
    case CAPACITY_MULTIPLIER => "capacity_multiplier" case STUB => "stub"
    case Other(text) => text
  }

  type Fields = map<Word, Doc>

  const MAX_DEPTH: nat := 12
  const MAX_BYTES: nat := 64000

  /** The keywords, formats and types that are let through. */
  datatype Vocabulary = Vocabulary(keywords: set<Word>, formats: set<Word>, types: set<Word>)

  const VOCABULARY := Vocabulary(
    {SCHEMA, ID, DEFS, REF, TYPE, PROPERTIES, REQUIRED, ADDITIONAL_PROPERTIES,
     ITEMS, MIN_ITEMS, MAX_ITEMS, MIN_LENGTH, MAX_LENGTH, MINIMUM, MAXIMUM,
     EXCLUSIVE_MINIMUM, EXCLUSIVE_MAXIMUM, ENUM, CONST, DESCRIPTION, TITLE, FORMAT,
     UNIQUE_ITEMS, ANY_OF, ONE_OF, ALL_OF},
    {DATE, DATE_TIME, DURATION, UUID},
    {OBJECT, ARRAY, STRING, NUMBER, INTEGER, BOOLEAN, NULL})

  // ---- Python on JSON values ----------------------------------------------------------

  /** What can be put in a set. */
  predicate Hashable(j: Doc) { !j.Arr? && !j.Obj? }

  function Numeric(j: Doc): Option<real> {
    match j
    case Int(i) => Some(i as real)
    case Float(r) => Some(r)
    case Bool(b) => Some(if b then 1.0 else 0.0)
    case _ => None
  }

  /** `==`: numbers and booleans compare by value, containers by content. */
  predicate Equal(a: Doc, b: Doc)
    decreases a
  {
    if Numeric(a).Some? || Numeric(b).Some? then Numeric(a) == Numeric(b)
    else
      match a
      case Null => b.Null?
      case Str(s) => b == Str(s)
      case Arr(xs) => b.Arr? && |b.items| == |xs| && forall i :: 0 <= i < |xs| ==> Equal(xs[i], b.items[i])
      case Obj(m) => b.Obj? && b.fields.Keys == m.Keys && forall k :: k in m ==> Equal(m[k], b.fields[k])
  }

  lemma {:induction false} EqualItself(p: Doc)
    ensures Equal(p, p)
    decreases p
  {
    match p
    case Obj(m) => forall k | k in m ensures Equal(m[k], m[k]) { EqualItself(m[k]); }
    case Arr(xs) => forall i | 0 <= i < |xs| ensures Equal(xs[i], xs[i]) { EqualItself(xs[i]); }
    case _ =>
  }

  /** `part in whole` on strings. */
  predicate Within(part: string, whole: string) { part <= whole || (whole != "" && Within(part, whole[1..])) }

  /** `key in container` for a string key; None where it raises. */
  function Contains(container: Doc, key: Word): Option<bool> {
    match container
    case Obj(m) => Some(key in m)
    case Arr(xs) => Some(Str(key) in xs)
    case Str(s) => Some(Within(Spelling(key), Spelling(s)))
    case _ => None
  }

  // ---- Admission ----------------------------------------------------------------------

  /** The values of `type` as a list; anything but a string or a list declares nothing. */
  function Declared(m: Fields): seq<Doc> {
    if TYPE !in m then []
    else
      match m[TYPE]
      case Str(s) => [Str(s)]
      case Arr(xs) => xs
      case _ => []
  }

  /** The checks on one schema object by itself. */
  predicate LocalOk(m: Fields, v: Vocabulary) {
    && m.Keys <= v.keywords
    && (REF in m ==> m[REF].Null? || (m[REF].Str? && "#/" <= Spelling(m[REF].s)))
    && (forall i :: 0 <= i < |Declared(m)| ==> Declared(m)[i].Str? && Declared(m)[i].s in v.types)
    && (Str(OBJECT) in Declared(m) ==> ADDITIONAL_PROPERTIES in m && m[ADDITIONAL_PROPERTIES] == Bool(false))
    && (Str(ARRAY) in Declared(m) ==> MAX_ITEMS in m)
    && (FORMAT in m ==> m[FORMAT].Str? && m[FORMAT].s in v.formats)
  }

  /** `visit` returns without raising. */
  predicate Admitted(j: Doc, depth: nat, v: Vocabulary) {
    depth <= MAX_DEPTH &&
    match j
    case Obj(m) =>
      && LocalOk(m, v)
      && forall k :: k in m ==>
           if k in {PROPERTIES, DEFS} && m[k].Obj? then forall x :: x in m[k].fields ==> Admitted(m[k].fields[x], depth + 1, v)
           else k in {REQUIRED, ENUM} || Admitted(m[k], depth + 1, v)
    case Arr(xs) => forall i :: 0 <= i < |xs| ==> Admitted(xs[i], depth + 1, v)
    case _ => true
  }

  /** `admit_schema` returns without raising; `bytes` is the length of the dumped schema, and the
      vocabulary it lets through is `VOCABULARY`. */
  predicate Admit(schema: Doc, bytes: nat, v: Vocabulary) { bytes <= MAX_BYTES && Admitted(schema, 0, v) }

  // ---- Validation ---------------------------------------------------------------------

  /** `matches`. */
  predicate Matches(p: Doc, kind: Doc) {
    match kind
    case Str(OBJECT) => p.Obj?
    case Str(ARRAY) => p.Arr?
    case Str(STRING) => p.Str?
    case Str(NUMBER) => p.Int? || p.Float?
    case Str(INTEGER) => p.Int?
    case Str(BOOLEAN) => p.Bool?
    case Str(NULL) => p.Null?
    case _ => false
  }

  /** The names of types that a value answers to: an integer is a number, a truth value is not. */
  function KindsOf(p: Doc): set<Word> {
    match p
    case Null => {NULL}
    case Bool(_) => {BOOLEAN}
    case Int(_) => {INTEGER, NUMBER}
    case Float(_) => {NUMBER}
    case Str(_) => {STRING}
    case Arr(_) => {ARRAY}
    case Obj(_) => {OBJECT}
  }

  lemma MatchesIff(p: Doc, kind: Doc)
    ensures Matches(p, kind) <==> kind.Str? && kind.s in KindsOf(p)
  {
  }

  /** The type check passes: nothing declared, or a match before anything unhashable. */
  predicate TypeOk(p: Doc, kinds: seq<Doc>) {
    kinds == [] || exists i :: 0 <= i < |kinds| && Matches(p, kinds[i]) && forall j :: 0 <= j < i ==> Hashable(kinds[j])
  }

  predicate RequiredOk(payload: Fields, m: Fields) {
    REQUIRED in m ==>
      match m[REQUIRED]
      case Arr(xs) => forall i :: 0 <= i < |xs| ==> xs[i].Str? && xs[i].s in payload
      case Str(s) => forall i :: 0 <= i < |Spelling(s)| ==> Other([Spelling(s)[i]]) in payload
      case Obj(r) => forall k :: k in r ==> k in payload
      case _ => false
  }

  function Properties(m: Fields): Doc { if PROPERTIES in m then m[PROPERTIES] else Obj(map[]) }

  function Items(m: Fields): Doc { if ITEMS in m then m[ITEMS] else Obj(map[]) }

  /** No property beyond the declared ones, where that is demanded. */
  predicate NoExtras(payload: Fields, m: Fields) {
    ADDITIONAL_PROPERTIES in m && m[ADDITIONAL_PROPERTIES] == Bool(false) ==>
      forall k :: k in payload ==> Contains(Properties(m), k) == Some(true)
  }

  predicate AtLeast(m: Fields, key: Word, n: real) {
    key in m ==> Numeric(m[key]).Some? && Numeric(m[key]).value <= n
  }

  predicate AtMost(m: Fields, key: Word, n: real) {
    key in m ==> Numeric(m[key]).Some? && n <= Numeric(m[key]).value
  }

  predicate Above(m: Fields, key: Word, n: real) {
    key in m ==> Numeric(m[key]).Some? && Numeric(m[key]).value < n
  }

  predicate Below(m: Fields, key: Word, n: real) {
    key in m ==> Numeric(m[key]).Some? && n < Numeric(m[key]).value
  }

  predicate BoundsOk(n: real, m: Fields) {
    && AtLeast(m, MINIMUM, n) && AtMost(m, MAXIMUM, n)
    && Above(m, EXCLUSIVE_MINIMUM, n) && Below(m, EXCLUSIVE_MAXIMUM, n)
  }

  predicate EnumOk(p: Doc, m: Fields) {
    ENUM in m ==>
      match m[ENUM]
      case Arr(xs) => exists i :: 0 <= i < |xs| && Equal(p, xs[i])
      case Obj(r) => p.Str? && p.s in r
      case Str(s) => p.Str? && Within(Spelling(p.s), Spelling(s))
      case _ => false
  }

  /** The keywords that look at a scalar. */
  predicate ScalarOk(p: Doc, m: Fields) {
    match p
    case Str(s) => AtMost(m, MAX_LENGTH, |Spelling(s)| as real)
    case Int(i) => BoundsOk(i as real, m)
    case Float(r) => BoundsOk(r, m)
    case _ => true
  }

  predicate LengthOk(n: nat, m: Fields) { AtLeast(m, MIN_ITEMS, n as real) && AtMost(m, MAX_ITEMS, n as real) }

  /** `validate_payload` returns no error and raises nothing. */
  predicate Accepted(p: Doc, schema: Doc)
    decreases p
  {
    && schema.Obj?
    && TypeOk(p, Declared(schema.fields))
    && (p.Obj? ==>
          && RequiredOk(p.fields, schema.fields) && NoExtras(p.fields, schema.fields)
          && forall k :: k in p.fields ==>
               && Contains(Properties(schema.fields), k).Some?
               && (Contains(Properties(schema.fields), k).value ==>
                     && Properties(schema.fields).Obj?
                     && Accepted(p.fields[k], Properties(schema.fields).fields[k])))
    && (p.Arr? ==>
          && LengthOk(|p.items|, schema.fields)
          && forall i :: 0 <= i < |p.items| ==> Accepted(p.items[i], Items(schema.fields)))
    && ScalarOk(p, schema.fields)
    && EnumOk(p, schema.fields)
  }

  // ---- Admission bounds what can be accepted ------------------------------------------

  /** Nested levels of a payload; a scalar is one level. */
  predicate Levels(p: Doc, n: nat)
    decreases p
  {
    && n >= 1
    && (p.Obj? ==> forall k :: k in p.fields ==> Levels(p.fields[k], n - 1))
    && (p.Arr? ==> forall i :: 0 <= i < |p.items| ==> Levels(p.items[i], n - 1))
  }

  /** Every subschema validation can reach declares a type, and arrays declare their items. */
  predicate Closed(schema: Doc) {
    schema.Obj? ==>
      && Declared(schema.fields) != []
      && (Str(ARRAY) in Declared(schema.fields) ==> ITEMS in schema.fields)
      && (ITEMS in schema.fields ==> Closed(schema.fields[ITEMS]))
      && (PROPERTIES in schema.fields && schema.fields[PROPERTIES].Obj? ==>
            forall k :: k in schema.fields[PROPERTIES].fields ==> Closed(schema.fields[PROPERTIES].fields[k]))
  }

  lemma MatchedType(p: Doc, m: Fields)
    requires TypeOk(p, Declared(m)) && Declared(m) != []
    ensures p.Obj? ==> Str(OBJECT) in Declared(m)
    ensures p.Arr? ==> Str(ARRAY) in Declared(m)
  {
    var i :| 0 <= i < |Declared(m)| && Matches(p, Declared(m)[i]);
    assert p.Obj? ==> Declared(m)[i] == Str(OBJECT);
    assert p.Arr? ==> Declared(m)[i] == Str(ARRAY);
  }

  /** What validation and admission together say about a property of an accepted object. */
  lemma PropertyIsDeclared(p: Doc, schema: Doc, depth: nat, v: Vocabulary, k: Word)
    requires Admitted(schema, depth, v) && Closed(schema) && Accepted(p, schema) && p.Obj? && k in p.fields
    ensures PROPERTIES in schema.fields && schema.fields[PROPERTIES].Obj? && k in schema.fields[PROPERTIES].fields
    ensures var child := schema.fields[PROPERTIES].fields[k];
      Admitted(child, depth + 1, v) && Closed(child) && Accepted(p.fields[k], child)
  {
    MatchedType(p, schema.fields);
  }

  lemma ItemIsDeclared(p: Doc, schema: Doc, depth: nat, v: Vocabulary, i: nat)
    requires Admitted(schema, depth, v) && Closed(schema) && Accepted(p, schema) && p.Arr? && i < |p.items|
    ensures ITEMS in schema.fields && MAX_ITEMS in schema.fields
    ensures var child := schema.fields[ITEMS];
      Admitted(child, depth + 1, v) && Closed(child) && Accepted(p.items[i], child)
  {
    MatchedType(p, schema.fields);
  }

  lemma TypeIsOneDeeper(schema: Doc, depth: nat, v: Vocabulary)
    requires Admitted(schema, depth, v) && schema.Obj? && Declared(schema.fields) != []
    ensures depth + 1 <= MAX_DEPTH
  {
    assert TYPE in schema.fields && Admitted(schema.fields[TYPE], depth + 1, v);
  }

  // ---- Descending a payload and its schema together -----------------------------------

  predicate HasProperty(schema: Doc, k: Word) {
    schema.Obj? && PROPERTIES in schema.fields && schema.fields[PROPERTIES].Obj? && k in schema.fields[PROPERTIES].fields
  }

  function PropertyOf(schema: Doc, k: Word): Doc
    requires HasProperty(schema, k)
  {
    schema.fields[PROPERTIES].fields[k]
  }

  predicate HasItems(schema: Doc) { schema.Obj? && ITEMS in schema.fields }

  /** The most items the schema allows. */
  function Cap(m: Fields): nat {
    if MAX_ITEMS in m && Numeric(m[MAX_ITEMS]).Some? && Numeric(m[MAX_ITEMS]).value >= 0.0
    then Numeric(m[MAX_ITEMS]).value.Floor else 0
  }

  type Relation = (Doc, Doc, nat) -> bool

  /** The documents are within the depth limit, and their parts are related one deeper. */
  predicate OneDeeper(related: Relation, p: Doc, schema: Doc, depth: nat) {
    && depth < MAX_DEPTH
    && (p.Obj? ==> forall k :: k in p.fields ==> HasProperty(schema, k) && related(p.fields[k], PropertyOf(schema, k), depth + 1))
    && (p.Arr? && p.items != [] ==>
          && HasItems(schema) && |p.items| <= Cap(schema.fields)
          && forall i :: 0 <= i < |p.items| ==> related(p.items[i], schema.fields[ITEMS], depth + 1))
  }

  ghost predicate Descends(related: Relation) {
    forall p: Doc, schema: Doc, depth: nat :: related(p, schema, depth) ==> OneDeeper(related, p, schema, depth)
  }

  /** A payload accepted under an admitted and closed schema. */
  predicate Fits(p: Doc, schema: Doc, depth: nat, v: Vocabulary) {
    Admitted(schema, depth, v) && Closed(schema) && Accepted(p, schema)
  }

  lemma CapHolds(p: Doc, schema: Doc)
    requires Accepted(p, schema) && p.Arr? && MAX_ITEMS in schema.fields
    ensures |p.items| <= Cap(schema.fields)
  {
  }

  function Fitting(v: Vocabulary): Relation { (p: Doc, schema: Doc, depth: nat) => Fits(p, schema, depth, v) }

  lemma FitsStep(p: Doc, schema: Doc, depth: nat, v: Vocabulary)
    requires Fits(p, schema, depth, v)
    ensures OneDeeper(Fitting(v), p, schema, depth)
  {
    TypeIsOneDeeper(schema, depth, v);
    if p.Obj? {
      forall k | k in p.fields ensures HasProperty(schema, k) && Fitting(v)(p.fields[k], PropertyOf(schema, k), depth + 1) {
        PropertyIsDeclared(p, schema, depth, v, k);
      }
    }
    if p.Arr? && p.items != [] {
      forall i | 0 <= i < |p.items|
        ensures HasItems(schema) && |p.items| <= Cap(schema.fields) && Fitting(v)(p.items[i], schema.fields[ITEMS], depth + 1)
      {
        ItemIsDeclared(p, schema, depth, v, i);
        CapHolds(p, schema);
      }
    }
  }

  lemma FitsDescends(v: Vocabulary)
    ensures Descends(Fitting(v))
  {
    forall p: Doc, schema: Doc, depth: nat | Fitting(v)(p, schema, depth) ensures OneDeeper(Fitting(v), p, schema, depth) {
      FitsStep(p, schema, depth, v);
    }
  }

  // ---- Depth --------------------------------------------------------------------------

  lemma {:induction false} DescentBoundsDepth(related: Relation, p: Doc, schema: Doc, depth: nat)
    requires Descends(related) && related(p, schema, depth)
    ensures depth < MAX_DEPTH && Levels(p, MAX_DEPTH - depth)
    decreases p
  {
    assert OneDeeper(related, p, schema, depth);
    if p.Obj? {
      forall k | k in p.fields ensures Levels(p.fields[k], MAX_DEPTH - depth - 1) {
        DescentBoundsDepth(related, p.fields[k], PropertyOf(schema, k), depth + 1);
      }
    }
    if p.Arr? {
      forall i | 0 <= i < |p.items| ensures Levels(p.items[i], MAX_DEPTH - depth - 1) {
        DescentBoundsDepth(related, p.items[i], schema.fields[ITEMS], depth + 1);
      }
    }
  }

  // ---- Size ---------------------------------------------------------------------------

  /** The number of values in a payload, containers and scalars alike. */
  ghost function Nodes(p: Doc): nat
    decreases p, if p.Obj? then |p.fields| + 1 else if p.Arr? then |p.items| + 1 else 0
  {
    match p
    case Obj(m) => 1 + FieldNodes(p, m.Keys)
    case Arr(xs) => 1 + ItemNodes(p, |xs|)
    case _ => 1
  }

  ghost function FieldNodes(p: Doc, keys: set<Word>): nat
    requires p.Obj? && keys <= p.fields.Keys
    decreases p, |keys|
  {
    if keys == {} then 0
    else
      var k :| k in keys;
      Nodes(p.fields[k]) + FieldNodes(p, keys - {k})
  }

  ghost function ItemNodes(p: Doc, n: nat): nat
    requires p.Arr? && n <= |p.items|
    decreases p, n
  {
    if n == 0 then 0 else ItemNodes(p, n - 1) + Nodes(p.items[n - 1])
  }

  /** `n` times `b`, by repeated addition. */
  function Times(n: nat, b: nat): nat { if n == 0 then 0 else Times(n - 1, b) + b }

  lemma {:induction false} TimesMonotone(n: nat, m: nat, b: nat)
    requires n <= m
    ensures Times(n, b) <= Times(m, b)
  {
    if n < m { TimesMonotone(n, m - 1, b); }
  }

  ghost function LargestProperty(schema: Doc, keys: set<Word>): nat
    requires forall k :: k in keys ==> HasProperty(schema, k)
    decreases schema, |keys|
  {
    if keys == {} then 0
    else
      var k :| k in keys;
      var first, others := Bound(PropertyOf(schema, k)), LargestProperty(schema, keys - {k});
      if first < others then others else first
  }

  function PropertyNames(schema: Doc): (names: set<Word>)
    ensures forall k :: k in names <==> HasProperty(schema, k)
  {
    if schema.Obj? && PROPERTIES in schema.fields && schema.fields[PROPERTIES].Obj? then schema.fields[PROPERTIES].fields.Keys else {}
  }

  /** The values of an enumeration, all counted. */
  ghost function EnumNodes(schema: Doc): nat {
    if schema.Obj? && ENUM in schema.fields then Nodes(schema.fields[ENUM]) else 0
  }

  /** A number of values no accepted payload exceeds, read off the schema alone. */
  ghost function Bound(schema: Doc): nat
    decreases schema, |PropertyNames(schema)| + 1
  {
    1 + Times(|PropertyNames(schema)|, LargestProperty(schema, PropertyNames(schema)))
      + (if HasItems(schema) then Times(Cap(schema.fields), Bound(schema.fields[ITEMS])) else 0)
      + EnumNodes(schema)
  }

  lemma {:induction false} LargestIsLargest(schema: Doc, keys: set<Word>, k: Word)
    requires (forall x :: x in keys ==> HasProperty(schema, x)) && k in keys
    ensures Bound(PropertyOf(schema, k)) <= LargestProperty(schema, keys)
    decreases |keys|
  {
    var x :| x in keys && LargestProperty(schema, keys) ==
      (var first, others := Bound(PropertyOf(schema, x)), LargestProperty(schema, keys - {x});
       if first < others then others else first);
    if x != k { LargestIsLargest(schema, keys - {x}, k); }
  }

  lemma FieldNodesSplit(p: Doc, keys: set<Word>) returns (x: Word)
    requires p.Obj? && keys <= p.fields.Keys && keys != {}
    ensures x in keys && FieldNodes(p, keys) == Nodes(p.fields[x]) + FieldNodes(p, keys - {x})
  {
    x :| x in keys && FieldNodes(p, keys) == Nodes(p.fields[x]) + FieldNodes(p, keys - {x});
  }

  lemma {:induction false} FieldNodesBound(p: Doc, keys: set<Word>, b: nat)
    requires p.Obj? && keys <= p.fields.Keys && forall k :: k in keys ==> Nodes(p.fields[k]) <= b
    ensures FieldNodes(p, keys) <= Times(|keys|, b)
    decreases |keys|
  {
    if keys != {} {
      var x := FieldNodesSplit(p, keys);
      var others := keys - {x};
      assert |keys| == |others| + 1;
      FieldNodesBound(p, others, b);
      assert FieldNodes(p, keys) <= b + Times(|others|, b);
    }
  }

  lemma {:induction false} ItemNodesBound(p: Doc, n: nat, b: nat)
    requires p.Arr? && n <= |p.items| && forall i :: 0 <= i < n ==> Nodes(p.items[i]) <= b
    ensures ItemNodes(p, n) <= Times(n, b)
    decreases n
  {
    if n > 0 { ItemNodesBound(p, n - 1, b); }
  }

  lemma ObjectSize(p: Doc, schema: Doc)
    requires p.Obj? && forall k :: k in p.fields ==> HasProperty(schema, k) && Nodes(p.fields[k]) <= Bound(PropertyOf(schema, k))
    ensures Nodes(p) <= Bound(schema)
  {
    var names := PropertyNames(schema);
    var b := LargestProperty(schema, names);
    forall k | k in p.fields ensures Nodes(p.fields[k]) <= b { LargestIsLargest(schema, names, k); }
    FieldNodesBound(p, p.fields.Keys, b);
    SubsetSize(p.fields.Keys, names);
    TimesMonotone(|p.fields.Keys|, |names|, b);
  }

  lemma ArraySize(p: Doc, schema: Doc)
    requires p.Arr? && HasItems(schema) && |p.items| <= Cap(schema.fields)
    requires forall i :: 0 <= i < |p.items| ==> Nodes(p.items[i]) <= Bound(schema.fields[ITEMS])
    ensures Nodes(p) <= Bound(schema)
  {
    var b := Bound(schema.fields[ITEMS]);
    ItemNodesBound(p, |p.items|, b);
    TimesMonotone(|p.items|, Cap(schema.fields), b);
  }

  lemma {:induction false} DescentBoundsSize(related: Relation, p: Doc, schema: Doc, depth: nat)
    requires Descends(related) && related(p, schema, depth)
    ensures Nodes(p) <= Bound(schema)
    decreases p
  {
    assert OneDeeper(related, p, schema, depth);
    if p.Obj? {
      forall k | k in p.fields ensures HasProperty(schema, k) && Nodes(p.fields[k]) <= Bound(PropertyOf(schema, k)) {
        DescentBoundsSize(related, p.fields[k], PropertyOf(schema, k), depth + 1);
      }
      ObjectSize(p, schema);
    }
    if p.Arr? && p.items != [] {
      forall i | 0 <= i < |p.items| ensures Nodes(p.items[i]) <= Bound(schema.fields[ITEMS]) {
        DescentBoundsSize(related, p.items[i], schema.fields[ITEMS], depth + 1);
      }
      ArraySize(p, schema);
    }
  }

  lemma Bounds(related: Relation, p: Doc, schema: Doc)
    requires Descends(related) && related(p, schema, 0)
    ensures Levels(p, MAX_DEPTH) && Nodes(p) <= Bound(schema)
  {
    DescentBoundsDepth(related, p, schema, 0);
    DescentBoundsSize(related, p, schema, 0);
  }

  /** Admission bounds what validation can accept: twelve levels, and as many values as the
      schema says. */
  lemma AdmissionBoundsPayloads(schema: Doc, bytes: nat, v: Vocabulary, p: Doc)
    requires Admit(schema, bytes, v) && Closed(schema) && Accepted(p, schema)
    ensures Levels(p, MAX_DEPTH) && Nodes(p) <= Bound(schema)
  {
    var fits := Fitting(v);
    assert fits(p, schema, 0) && Descends(fits) by { FitsDescends(v); }
    Bounds(fits, p, schema);
  }

  // ---- Why the conditions are needed --------------------------------------------------

  function Tower(n: nat): Doc { if n == 0 then Null else Arr([Tower(n - 1)]) }

  lemma {:induction false} TowerIsTall(n: nat)
    ensures !Levels(Tower(n), n)
  {
    if n > 0 {
      TowerIsTall(n - 1);
      assert Tower(n).items[0] == Tower(n - 1);
    }
  }

  lemma {:induction false} EmptySchemaAccepts(p: Doc)
    ensures Accepted(p, Obj(map[]))
    decreases p
  {
    if p.Obj? {
      forall k | k in p.fields ensures Accepted(p.fields[k], Obj(map[])) { EmptySchemaAccepts(p.fields[k]); }
    }
    if p.Arr? {
      forall i | 0 <= i < |p.items| ensures Accepted(p.items[i], Obj(map[])) { EmptySchemaAccepts(p.items[i]); }
    }
  }

  /** A schema that declares nothing is admitted and bounds nothing. */
  lemma UntypedSchemaBoundsNothing(n: nat)
    ensures Admit(Obj(map[]), 2, VOCABULARY) && Accepted(Tower(n), Obj(map[])) && !Levels(Tower(n), n)
  {
    TowerIsTall(n);
    EmptySchemaAccepts(Tower(n));
  }

  const LOOSE_ARRAY: Fields := map[TYPE := Str(ARRAY), MAX_ITEMS := Int(1)]

  lemma LooseArrayIsAdmitted()
    ensures Admit(Obj(LOOSE_ARRAY), 32, VOCABULARY)
  {
    assert Declared(LOOSE_ARRAY) == [Str(ARRAY)];
    assert LOOSE_ARRAY.Keys == {TYPE, MAX_ITEMS};
    assert LocalOk(LOOSE_ARRAY, VOCABULARY);
    assert Admitted(Str(ARRAY), 1, VOCABULARY) && Admitted(Int(1), 1, VOCABULARY);
  }

  lemma LooseArrayAccepts(p: Doc)
    ensures Accepted(Arr([p]), Obj(LOOSE_ARRAY))
  {
    var a := Arr([p]);
    EmptySchemaAccepts(p);
    assert Declared(LOOSE_ARRAY) == [Str(ARRAY)] && Items(LOOSE_ARRAY) == Obj(map[]);
    assert Matches(a, Declared(LOOSE_ARRAY)[0]);
    assert LengthOk(1, LOOSE_ARRAY) && EnumOk(a, LOOSE_ARRAY);
  }

  /** Nor does an array schema without items, however few items it allows. */
  lemma ArrayWithoutItemsBoundsNothing(n: nat)
    requires n > 0
    ensures Admit(Obj(LOOSE_ARRAY), 32, VOCABULARY) && Accepted(Tower(n), Obj(LOOSE_ARRAY)) && !Levels(Tower(n), n)
  {
    LooseArrayIsAdmitted();
    TowerIsTall(n);
    LooseArrayAccepts(Tower(n - 1));
  }
}
