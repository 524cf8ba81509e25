/** Exactly which schemas bound the payloads that validation accepts, in size and in depth. */
module SchemaBounds {
  import opened Wrappers
  import opened Sets
  import opened Schema
  import opened SchemaPossible

  // ---- Counting values ------------------------------------------------------------------

  /** Any key can be counted first. */
  lemma {:induction false} FieldNodesAny(p: Doc, keys: set<Word>, k: Word)
    requires p.Obj? && k in keys && keys <= p.fields.Keys
    ensures FieldNodes(p, keys) == Nodes(p.fields[k]) + FieldNodes(p, keys - {k})
    decreases |keys|
  {
    var x := FieldNodesSplit(p, keys);
    if x != k {
      FieldNodesAny(p, keys - {x}, k);
      FieldNodesAny(p, keys - {k}, x);
      assert keys - {x} - {k} == keys - {k} - {x};
    }
  }

  lemma {:induction false} EqualNodes(a: Doc, b: Doc)
    requires Equal(a, b)
    ensures Nodes(a) == Nodes(b)
    decreases a, 1
  {
    match a
    case Obj(m) => EqualFieldNodes(a, b, m.Keys);
    case Arr(xs) => EqualItemNodes(a, b, |xs|);
    case _ =>
  }

  lemma {:induction false} EqualFieldNodes(a: Doc, b: Doc, keys: set<Word>)
    requires Equal(a, b) && a.Obj? && keys <= a.fields.Keys
    ensures b.Obj? && a.fields.Keys == b.fields.Keys && FieldNodes(a, keys) == FieldNodes(b, keys)
    decreases a, 0, |keys|
  {
    if keys != {} {
      var x := FieldNodesSplit(a, keys);
      FieldNodesAny(b, keys, x);
      EqualNodes(a.fields[x], b.fields[x]);
      EqualFieldNodes(a, b, keys - {x});
    }
  }

  lemma {:induction false} EqualItemNodes(a: Doc, b: Doc, n: nat)
    requires Equal(a, b) && a.Arr? && n <= |a.items|
    ensures b.Arr? && |a.items| == |b.items| && ItemNodes(a, n) == ItemNodes(b, n)
    decreases a, 0, n
  {
    if n > 0 {
      EqualItemNodes(a, b, n - 1);
      EqualNodes(a.items[n - 1], b.items[n - 1]);
    }
  }

  lemma {:induction false} ItemNodesAtLeast(p: Doc, n: nat, i: nat)
    requires p.Arr? && i < n <= |p.items|
    ensures ItemNodes(p, n) >= Nodes(p.items[i]) && ItemNodes(p, n) >= n
    decreases n
  {
    if n > 1 { ItemNodesAtLeast(p, n - 1, if i < n - 1 then i else 0); }
  }

  lemma {:induction false} TowerNodes(n: nat)
    ensures Nodes(Tower(n)) == n + 1
  {
    if n > 0 {
      TowerNodes(n - 1);
      assert ItemNodes(Tower(n), 1) == ItemNodes(Tower(n), 0) + Nodes(Tower(n).items[0]);
    }
  }

  // ---- Which schemas bound -----------------------------------------------------------------

  /** The size of what is accepted is bounded: by an enumeration, or because an accepted object
      has declared keys only, all with bounded values, and an accepted array with an item has
      a limit on its length and bounded items. */
  predicate Bounding(schema: Doc) {
    schema.Obj? && ENUM !in schema.fields ==>
      && (ObjectPossible(schema) ==>
            !Loose(schema.fields) && forall k :: k in PropertyNames(schema) ==> Bounding(PropertyOf(schema, k)))
      && (ItemPossible(schema) ==>
            MAX_ITEMS in schema.fields && ITEMS in schema.fields && Bounding(schema.fields[ITEMS]))
  }

  lemma EnumBounds(p: Doc, schema: Doc)
    requires Accepted(p, schema) && ENUM in schema.fields
    ensures Nodes(p) <= Bound(schema)
  {
    var listed := schema.fields[ENUM];
    if listed.Arr? {
      var i :| 0 <= i < |listed.items| && Equal(p, listed.items[i]);
      EqualNodes(p, listed.items[i]);
      ItemNodesAtLeast(listed, |listed.items|, i);
    }
  }

  lemma {:induction false} BoundingBounds(p: Doc, schema: Doc)
    requires Bounding(schema) && Accepted(p, schema)
    ensures Nodes(p) <= Bound(schema)
    decreases p
  {
    if ENUM in schema.fields {
      EnumBounds(p, schema);
    } else if p.Obj? {
      AcceptedIsPossible(p, schema);
      AcceptedObject(p, schema);
      forall k | k in p.fields ensures HasProperty(schema, k) && Nodes(p.fields[k]) <= Bound(PropertyOf(schema, k)) {
        assert ValueOk(schema, k, p.fields[k]);
        assert !Free(schema.fields, k);
        BoundingBounds(p.fields[k], PropertyOf(schema, k));
      }
      ObjectSize(p, schema);
    } else if p.Arr? && p.items != [] {
      AcceptedIsPossible(p, schema);
      AcceptedArray(p, schema);
      CapHolds(p, schema);
      forall i | 0 <= i < |p.items| ensures Nodes(p.items[i]) <= Bound(schema.fields[ITEMS]) {
        BoundingBounds(p.items[i], schema.fields[ITEMS]);
      }
      ArraySize(p, schema);
    }
  }

  /** An accepted object stays accepted with one more value that may stand where it stands. */
  lemma GrowObject(schema: Doc, fields: Fields, k: Word, value: Doc)
    requires schema.Obj? && ENUM !in schema.fields && Accepted(Obj(fields), schema) && ValueOk(schema, k, value)
    ensures Accepted(Obj(fields[k := value]), schema) && Nodes(Obj(fields[k := value])) > Nodes(value)
  {
    var bigger := fields[k := value];
    AcceptedObject(Obj(fields), schema);
    DemandedIff(fields, schema.fields);
    DemandedIff(bigger, schema.fields);
    forall x | x in bigger ensures ValueOk(schema, x, bigger[x]) {
      if x != k { assert ValueOk(schema, x, fields[x]); }
    }
    AcceptedObject(Obj(bigger), schema);
    FieldNodesAny(Obj(bigger), bigger.Keys, k);
  }

  lemma SomeObject(schema: Doc) returns (fields: Fields)
    requires schema.Obj? && ENUM !in schema.fields && ObjectPossible(schema)
    ensures Accepted(Obj(fields), schema)
  {
    forall k | HasProperty(schema, k) ensures Witnessed(PropertyOf(schema, k)) { PossibleIff(PropertyOf(schema, k)); }
    fields := ObjectWitness(schema);
  }

  lemma BigArray(schema: Doc, n: nat, item: Doc) returns (p: Doc)
    requires schema.Obj? && ENUM !in schema.fields && AllowsArray(schema.fields) && LengthOk(n, schema.fields) && n > 0
    requires Accepted(item, Items(schema.fields))
    ensures Accepted(p, schema) && Nodes(p) > Nodes(item) && Nodes(p) > n
  {
    p := Arr(seq(n, _ => item));
    ArrayWitness(schema, n, item);
    ItemNodesAtLeast(p, n, 0);
  }

  /** Without a limit on the length there are arrays of any length. */
  lemma LongArray(schema: Doc, n: nat) returns (p: Doc)
    requires schema.Obj? && ENUM !in schema.fields && ItemPossible(schema) && MAX_ITEMS !in schema.fields
    ensures Accepted(p, schema) && Nodes(p) > n
  {
    var m := schema.fields;
    if ITEMS in m { PossibleIff(m[ITEMS]); }
    ItemAccepted(m);
    var length := LongEnough(m, n);
    p := BigArray(schema, length, Sample(Items(m)));
  }

  /** Otherwise something larger than any given size is accepted. */
  lemma {:induction false} UnboundingHasLarge(schema: Doc, n: nat) returns (p: Doc)
    requires !Bounding(schema)
    ensures Accepted(p, schema) && Nodes(p) > n
    decreases schema
  {
    var m := schema.fields;
    if ObjectPossible(schema) && (Loose(m) || exists k :: HasProperty(schema, k) && !Bounding(PropertyOf(schema, k))) {
      var fields := SomeObject(schema);
      if Loose(m) {
        var k := LooseHasFree(m);
        TowerNodes(n);
        GrowObject(schema, fields, k, Tower(n));
        p := Obj(fields[k := Tower(n)]);
      } else {
        var k :| HasProperty(schema, k) && !Bounding(PropertyOf(schema, k));
        var value := UnboundingHasLarge(PropertyOf(schema, k), n);
        GrowObject(schema, fields, k, value);
        p := Obj(fields[k := value]);
      }
    } else if MAX_ITEMS !in m {
      p := LongArray(schema, n);
    } else if ITEMS !in m {
      TowerNodes(n);
      EmptySchemaAccepts(Tower(n));
      p := BigArray(schema, Cap(m), Tower(n));
    } else {
      var item := UnboundingHasLarge(m[ITEMS], n);
      p := BigArray(schema, Cap(m), item);
    }
  }

  ghost predicate BoundedBy(schema: Doc, n: nat) { forall p :: Accepted(p, schema) ==> Nodes(p) <= n }

  /** For any schema at all: there is a bound on the number of values in an accepted payload
      exactly if the schema is bounding. */
  lemma BoundedIff(schema: Doc)
    ensures (exists n: nat :: BoundedBy(schema, n)) <==> Bounding(schema)
  {
    if Bounding(schema) {
      forall p | Accepted(p, schema) ensures Nodes(p) <= Bound(schema) { BoundingBounds(p, schema); }
      assert BoundedBy(schema, Bound(schema));
    } else {
      forall n: nat ensures !BoundedBy(schema, n) {
        var p := UnboundingHasLarge(schema, n);
      }
    }
  }

  lemma ClosedParts(schema: Doc, depth: nat, v: Vocabulary)
    requires schema.Obj? && Admitted(schema, depth, v) && Closed(schema)
    ensures AllowsObject(schema.fields) ==> Forbids(schema.fields)
    ensures AllowsArray(schema.fields) ==> MAX_ITEMS in schema.fields && ITEMS in schema.fields
    ensures ITEMS in schema.fields ==> Admitted(schema.fields[ITEMS], depth + 1, v) && Closed(schema.fields[ITEMS])
    ensures forall k :: HasProperty(schema, k) ==> Admitted(PropertyOf(schema, k), depth + 1, v) && Closed(PropertyOf(schema, k))
  {
    if AllowsObject(schema.fields) { MatchedType(Obj(map[]), schema.fields); }
    if AllowsArray(schema.fields) { MatchedType(Arr([]), schema.fields); }
  }

  /** The condition of `AdmissionBoundsPayloads` is one way to be bounding. */
  lemma {:induction false} ClosedIsBounding(schema: Doc, depth: nat, v: Vocabulary)
    requires Admitted(schema, depth, v) && Closed(schema)
    ensures Bounding(schema)
    decreases schema
  {
    if schema.Obj? {
      ClosedParts(schema, depth, v);
      forall k | HasProperty(schema, k) ensures Bounding(PropertyOf(schema, k)) {
        ClosedIsBounding(PropertyOf(schema, k), depth + 1, v);
      }
      if ITEMS in schema.fields { ClosedIsBounding(schema.fields[ITEMS], depth + 1, v); }
    }
  }

  // ---- Which schemas bound the depth ----------------------------------------------------------

  /** Nothing deeper than `n` levels is accepted: neither a listed value, nor an object, whose
      keys are then declared ones with shallower values, nor an array, whose items are then
      shallower. */
  predicate Shallow(schema: Doc, n: nat)
    decreases schema
  {
    Possible(schema) ==>
      && n > 0
      && if ENUM in schema.fields then ListedShallow(schema, n)
         else
           && (ObjectPossible(schema) ==>
                 !Loose(schema.fields) && forall k :: k in PropertyNames(schema) ==> Shallow(PropertyOf(schema, k), n - 1))
           && (ItemPossible(schema) ==> ITEMS in schema.fields && Shallow(schema.fields[ITEMS], n - 1))
  }

  predicate ListedShallow(schema: Doc, n: nat)
    requires schema.Obj? && ENUM in schema.fields
  {
    schema.fields[ENUM].Arr? ==>
      forall i :: 0 <= i < |schema.fields[ENUM].items| && Variant(schema.fields[ENUM].items[i], schema) ==>
        Levels(schema.fields[ENUM].items[i], n)
  }

  lemma {:induction false} EqualLevels(a: Doc, b: Doc, n: nat)
    requires Equal(a, b) && Levels(a, n)
    ensures Levels(b, n)
    decreases a
  {
    if b.Obj? {
      forall k | k in b.fields ensures Levels(b.fields[k], n - 1) { EqualLevels(a.fields[k], b.fields[k], n - 1); }
    }
    if b.Arr? {
      forall i | 0 <= i < |b.items| ensures Levels(b.items[i], n - 1) { EqualLevels(a.items[i], b.items[i], n - 1); }
    }
  }

  lemma ListedLevels(p: Doc, schema: Doc, n: nat)
    requires Accepted(p, schema) && ENUM in schema.fields && ListedShallow(schema, n) && n > 0
    ensures Levels(p, n)
  {
    var listed := schema.fields[ENUM];
    if listed.Arr? {
      var i :| 0 <= i < |listed.items| && Equal(p, listed.items[i]);
      AcceptedVariant(p, listed.items[i], schema);
      EqualSymmetric(p, listed.items[i]);
      EqualLevels(listed.items[i], p, n);
    }
  }

  lemma {:induction false} ShallowLevels(p: Doc, schema: Doc, n: nat)
    requires Shallow(schema, n) && Accepted(p, schema)
    ensures Levels(p, n)
    decreases p
  {
    AcceptedIsPossible(p, schema);
    if ENUM in schema.fields {
      ListedLevels(p, schema, n);
    } else if p.Obj? {
      AcceptedObject(p, schema);
      forall k | k in p.fields ensures Levels(p.fields[k], n - 1) {
        assert ValueOk(schema, k, p.fields[k]);
        assert !Free(schema.fields, k) && k in PropertyNames(schema);
        ShallowLevels(p.fields[k], PropertyOf(schema, k), n - 1);
      }
    } else if p.Arr? {
      AcceptedArray(p, schema);
      forall i | 0 <= i < |p.items| ensures Levels(p.items[i], n - 1) {
        ShallowLevels(p.items[i], schema.fields[ITEMS], n - 1);
      }
    }
  }

  lemma DeepListed(schema: Doc, n: nat) returns (p: Doc)
    requires schema.Obj? && ENUM in schema.fields && !ListedShallow(schema, n)
    ensures Accepted(p, schema) && !Levels(p, n)
  {
    var xs := schema.fields[ENUM].items;
    var i :| 0 <= i < |xs| && Variant(xs[i], schema) && !Levels(xs[i], n);
    p := VariantIsAccepted(xs[i], schema);
    if Levels(p, n) { EqualLevels(p, xs[i], n); }
  }

  /** An array of whatever length is allowed, around one item. */
  lemma ArrayAround(schema: Doc, item: Doc) returns (p: Doc)
    requires schema.Obj? && ENUM !in schema.fields && ItemPossible(schema) && Accepted(item, Items(schema.fields))
    ensures Accepted(p, schema) && p.Arr? && item in p.items
  {
    var m := schema.fields;
    var length := Cap(m);
    if MAX_ITEMS !in m { length := LongEnough(m, 0); }
    p := Arr(seq(length, _ => item));
    ArrayWitness(schema, length, item);
    assert p.items[0] == item;
  }

  /** An object that holds a value under a key that may have it. */
  lemma ObjectAround(schema: Doc, k: Word, value: Doc) returns (p: Doc)
    requires schema.Obj? && ENUM !in schema.fields && ObjectPossible(schema) && ValueOk(schema, k, value)
    ensures Accepted(p, schema) && p.Obj? && k in p.fields && p.fields[k] == value
  {
    var fields := SomeObject(schema);
    GrowObject(schema, fields, k, value);
    p := Obj(fields[k := value]);
  }

  lemma DeepLoose(schema: Doc, n: nat) returns (p: Doc)
    requires schema.Obj? && ENUM !in schema.fields && n > 0
    requires (ObjectPossible(schema) && Loose(schema.fields)) || (ItemPossible(schema) && ITEMS !in schema.fields)
    ensures Accepted(p, schema) && !Levels(p, n)
  {
    TowerIsTall(n - 1);
    if ObjectPossible(schema) && Loose(schema.fields) {
      var k := LooseHasFree(schema.fields);
      p := ObjectAround(schema, k, Tower(n - 1));
    } else {
      EmptySchemaAccepts(Tower(n - 1));
      p := ArrayAround(schema, Tower(n - 1));
    }
  }

  predicate DeepProperty(schema: Doc, n: nat, k: Word)
    requires n > 0
  {
    k in PropertyNames(schema) && !Shallow(PropertyOf(schema, k), n - 1)
  }

  lemma {:induction false} DeepPayload(schema: Doc, n: nat) returns (p: Doc)
    requires !Shallow(schema, n)
    ensures Accepted(p, schema) && !Levels(p, n)
    decreases schema
  {
    var m := schema.fields;
    if n == 0 {
      PossibleIff(schema);
      p :| Accepted(p, schema);
    } else if ENUM in m {
      p := DeepListed(schema, n);
    } else if (ObjectPossible(schema) && Loose(m)) || (ItemPossible(schema) && ITEMS !in m) {
      p := DeepLoose(schema, n);
    } else if ObjectPossible(schema) && exists k :: DeepProperty(schema, n, k) {
      var k :| DeepProperty(schema, n, k);
      var value := DeepPayload(PropertyOf(schema, k), n - 1);
      p := ObjectAround(schema, k, value);
    } else {
      assert forall k :: k in PropertyNames(schema) && !Shallow(PropertyOf(schema, k), n - 1) ==> DeepProperty(schema, n, k);
      var item := DeepPayload(m[ITEMS], n - 1);
      p := ArrayAround(schema, item);
    }
  }

  /** For any schema and any limit: every accepted payload stays within the limit exactly if the
      schema is shallow. */
  lemma DepthIff(schema: Doc, n: nat)
    ensures (forall p :: Accepted(p, schema) ==> Levels(p, n)) <==> Shallow(schema, n)
  {
    if Shallow(schema, n) {
      forall p | Accepted(p, schema) ensures Levels(p, n) { ShallowLevels(p, schema, n); }
    } else {
      var p := DeepPayload(schema, n);
    }
  }

  /** What the limit of admission is worth: it is the limit of the payloads exactly for the schemas
      that are shallow to it, and those that declare types and items throughout are. */
  lemma AdmissionDepthIff(schema: Doc, bytes: nat, v: Vocabulary)
    requires Admit(schema, bytes, v)
    ensures (forall p :: Accepted(p, schema) ==> Levels(p, MAX_DEPTH)) <==> Shallow(schema, MAX_DEPTH)
    ensures Closed(schema) ==> Shallow(schema, MAX_DEPTH)
  {
    DepthIff(schema, MAX_DEPTH);
    if Closed(schema) {
      forall p | Accepted(p, schema) ensures Levels(p, MAX_DEPTH) { AdmissionBoundsPayloads(schema, bytes, v, p); }
    }
  }

  /** Enumerations are not looked into on admission, and admit payloads of any depth, although
      they bound the size. */
  lemma EnumIsDeep(n: nat)
    requires 16 + 2 * n <= MAX_BYTES
    ensures var schema := Obj(map[ENUM := Arr([Tower(n)])]);
      && Admit(schema, 16 + 2 * n, VOCABULARY) && Bounding(schema)
      && Accepted(Tower(n), schema) && !Levels(Tower(n), n) && !Shallow(schema, n)
  {
    var m: Fields := map[ENUM := Arr([Tower(n)])];
    var schema := Obj(m);
    assert LocalOk(m, VOCABULARY) && Declared(m) == [];
    EqualItself(Tower(n));
    assert Equal(Tower(n), m[ENUM].items[0]);
    LooselyAccepts(Tower(n), schema);
    TowerIsTall(n);
    DepthIff(schema, n);
  }

  /** Keywords other than an enumeration aside, an untyped schema accepts what is listed. */
  lemma LooselyAccepts(p: Doc, schema: Doc)
    requires schema.Obj? && schema.fields.Keys == {ENUM} && EnumOk(p, schema.fields)
    ensures Accepted(p, schema)
  {
    var m := schema.fields;
    assert Declared(m) == [] && Properties(m) == Obj(map[]) && Items(m) == Obj(map[]);
    if p.Arr? {
      forall i | 0 <= i < |p.items| ensures Accepted(p.items[i], Items(m)) { EmptySchemaAccepts(p.items[i]); }
    }
  }

  /** But not the only one: an enumeration bounds without any type. */
  lemma EnumIsBounding()
    ensures var schema := Obj(map[ENUM := Arr([Int(1)])]);
      Admit(schema, 13, VOCABULARY) && !Closed(schema) && Bounding(schema)
  {
    var m: Fields := map[ENUM := Arr([Int(1)])];
    assert LocalOk(m, VOCABULARY) && Declared(m) == [];
  }
}
