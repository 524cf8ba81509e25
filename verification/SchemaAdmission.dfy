/** Exactly which schemas are admitted. */
module SchemaAdmission {
  import opened Wrappers
  import opened Schema

  /** The parts that `visit` goes on to: the subschemas under `properties` and `$defs`, and whatever
      stands under any other key but `required` and `enum`. */
  predicate IsPart(j: Doc, part: Doc) {
    match j
    case Obj(m) =>
      exists k :: k in m &&
        if k in {PROPERTIES, DEFS} && m[k].Obj? then exists x :: x in m[k].fields && m[k].fields[x] == part
        else k !in {REQUIRED, ENUM} && m[k] == part
    case Arr(xs) => part in xs
    case _ => false
  }

  /** `node` is visited `steps` levels below `j`. */
  ghost predicate IsVisited(j: Doc, node: Doc, steps: nat)
    decreases steps
  {
    if steps == 0 then node == j else exists part :: IsPart(j, part) && IsVisited(part, node, steps - 1)
  }

  /** Everything visited is within the limit and passes the checks on it. */
  ghost predicate AllAdmissible(j: Doc, depth: nat, v: Vocabulary) {
    forall node, steps: nat :: IsVisited(j, node, steps) ==> depth + steps <= 12 && (node.Obj? ==> LocalOk(node.fields, v))
  }

  lemma {:induction false} VisitedIsAdmissible(j: Doc, depth: nat, v: Vocabulary, node: Doc, steps: nat)
    requires Admitted(j, depth, v) && IsVisited(j, node, steps)
    ensures depth + steps <= 12 && (node.Obj? ==> LocalOk(node.fields, v))
    decreases steps
  {
    if steps > 0 {
      var part :| IsPart(j, part) && IsVisited(part, node, steps - 1);
      assert Admitted(part, depth + 1, v);
      VisitedIsAdmissible(part, depth + 1, v, node, steps - 1);
    }
  }

  lemma PartIsAdmissible(j: Doc, depth: nat, v: Vocabulary, part: Doc)
    requires AllAdmissible(j, depth, v) && IsPart(j, part)
    ensures AllAdmissible(part, depth + 1, v)
  {
    forall node, steps: nat | IsVisited(part, node, steps)
      ensures depth + 1 + steps <= 12 && (node.Obj? ==> LocalOk(node.fields, v))
    {
      assert IsVisited(j, node, steps + 1);
    }
  }

  lemma {:induction false} AdmissibleIsAdmitted(j: Doc, depth: nat, v: Vocabulary)
    requires AllAdmissible(j, depth, v)
    ensures Admitted(j, depth, v)
    decreases j
  {
    assert IsVisited(j, j, 0);
    match j
    case Obj(m) =>
      forall k | k in m
        ensures if k in {PROPERTIES, DEFS} && m[k].Obj? then forall x :: x in m[k].fields ==> Admitted(m[k].fields[x], depth + 1, v)
                else k in {REQUIRED, ENUM} || Admitted(m[k], depth + 1, v)
      {
        if k in {PROPERTIES, DEFS} && m[k].Obj? {
          forall x | x in m[k].fields ensures Admitted(m[k].fields[x], depth + 1, v) {
            assert IsPart(j, m[k].fields[x]);
            PartIsAdmissible(j, depth, v, m[k].fields[x]);
            AdmissibleIsAdmitted(m[k].fields[x], depth + 1, v);
          }
        } else if k !in {REQUIRED, ENUM} {
          assert IsPart(j, m[k]);
          PartIsAdmissible(j, depth, v, m[k]);
          AdmissibleIsAdmitted(m[k], depth + 1, v);
        }
      }
    case Arr(xs) =>
      forall i | 0 <= i < |xs| ensures Admitted(xs[i], depth + 1, v) {
        assert IsPart(j, xs[i]);
        PartIsAdmissible(j, depth, v, xs[i]);
        AdmissibleIsAdmitted(xs[i], depth + 1, v);
      }
    case _ =>
  }

  /** A schema is admitted exactly if it is at most 64000 bytes long and everything visited in it is
      at most twelve levels down and passes the checks. */
  lemma AdmittedIff(schema: Doc, bytes: nat, v: Vocabulary)
    ensures Admit(schema, bytes, v) <==> bytes <= 64000 && AllAdmissible(schema, 0, v)
  {
    if Admit(schema, bytes, v) {
      forall node, steps: nat | IsVisited(schema, node, steps)
        ensures 0 + steps <= 12 && (node.Obj? ==> LocalOk(node.fields, v))
      {
        VisitedIsAdmissible(schema, 0, v, node, steps);
      }
    }
    if AllAdmissible(schema, 0, v) { AdmissibleIsAdmitted(schema, 0, v); }
  }

  /** A word that no keyword list names. */
  predicate Unknown(w: Word) {
    w.Other? || w in {DATE, DATE_TIME, DURATION, UUID, OBJECT, ARRAY, STRING, NUMBER, INTEGER, BOOLEAN, NULL, CAPACITY_MULTIPLIER, STUB}
  }

  predicate IsTypeName(d: Doc) {
    d in {Str(OBJECT), Str(ARRAY), Str(STRING), Str(NUMBER), Str(INTEGER), Str(BOOLEAN), Str(NULL)}
  }

  /** `type` names the kind, alone or in a list. */
  predicate Declares(m: Fields, kind: Word) {
    TYPE in m && (m[TYPE] == Str(kind) || (m[TYPE].Arr? && Str(kind) in m[TYPE].items))
  }

  /** The types declared, alone or in a list, are all names of types. */
  predicate TypesAreNames(m: Fields) {
    TYPE in m ==>
      && (m[TYPE].Str? ==> IsTypeName(m[TYPE]))
      && (m[TYPE].Arr? ==> forall i :: 0 <= i < |m[TYPE].items| ==> IsTypeName(m[TYPE].items[i]))
  }

  /** A reference stays inside the document. */
  predicate RefIsLocal(m: Fields) {
    REF in m && !m[REF].Null? ==>
      m[REF].Str? && |Spelling(m[REF].s)| >= 2 && Spelling(m[REF].s)[0] == '#' && Spelling(m[REF].s)[1] == '/'
  }

  /** Objects are closed and arrays are limited. */
  predicate ContainersAreLimited(m: Fields) {
    && (Declares(m, OBJECT) ==> ADDITIONAL_PROPERTIES in m && m[ADDITIONAL_PROPERTIES] == Bool(false))
    && (Declares(m, ARRAY) ==> MAX_ITEMS in m)
  }

  predicate FormatIsKnown(m: Fields) {
    FORMAT in m ==> m[FORMAT] in {Str(DATE), Str(DATE_TIME), Str(DURATION), Str(UUID)}
  }

  lemma KeywordsAre(w: Word)
    ensures w in VOCABULARY.keywords <==> !Unknown(w)
  {
  }

  lemma TypesAre(d: Doc)
    ensures (d.Str? && d.s in VOCABULARY.types) <==> IsTypeName(d)
  {
  }

  lemma DeclaredAre(m: Fields, kind: Word)
    ensures Str(kind) in Declared(m) <==> Declares(m, kind)
  {
  }

  lemma DeclaredNames(m: Fields)
    ensures (forall i :: 0 <= i < |Declared(m)| ==> IsTypeName(Declared(m)[i])) <==> TypesAreNames(m)
  {
    var kinds := Declared(m);
    if TYPE in m && m[TYPE].Str? {
      assert kinds == [m[TYPE]] && kinds[0] == m[TYPE];
    } else if TYPE in m && m[TYPE].Arr? {
      assert kinds == m[TYPE].items;
    } else {
      assert kinds == [];
    }
  }

  lemma HashSlash(s: string)
    ensures "#/" <= s <==> |s| >= 2 && s[0] == '#' && s[1] == '/'
  {
    if |s| >= 2 && s[0] == '#' && s[1] == '/' { assert s[..2] == "#/"; }
  }

  lemma FormatsAre(m: Fields)
    ensures (FORMAT in m ==> m[FORMAT].Str? && m[FORMAT].s in VOCABULARY.formats) <==> FormatIsKnown(m)
  {
  }

  lemma KeysAre(m: Fields)
    ensures m.Keys <= VOCABULARY.keywords <==> forall k :: k in m ==> !Unknown(k)
  {
    forall k ensures k in VOCABULARY.keywords <==> !Unknown(k) { KeywordsAre(k); }
    if forall k :: k in m ==> !Unknown(k) {
      forall k | k in m.Keys ensures k in VOCABULARY.keywords { KeywordsAre(k); }
    }
  }

  lemma RefsAre(m: Fields)
    ensures (REF in m ==> m[REF].Null? || (m[REF].Str? && "#/" <= Spelling(m[REF].s))) <==> RefIsLocal(m)
  {
    if REF in m && m[REF].Str? { HashSlash(Spelling(m[REF].s)); }
  }

  lemma ListsAre(m: Fields, v: Vocabulary)
    requires v.types == VOCABULARY.types
    ensures (forall i :: 0 <= i < |Declared(m)| ==> Declared(m)[i].Str? && Declared(m)[i].s in v.types) <==> TypesAreNames(m)
  {
    DeclaredNames(m);
    forall i | 0 <= i < |Declared(m)|
      ensures (Declared(m)[i].Str? && Declared(m)[i].s in v.types) <==> IsTypeName(Declared(m)[i])
    {
      TypesAre(Declared(m)[i]);
    }
  }

  /** The checks on a schema object, one by one; the vocabulary has the real one's parts. */
  lemma ChecksAre(m: Fields, v: Vocabulary)
    requires v.keywords == VOCABULARY.keywords && v.formats == VOCABULARY.formats && v.types == VOCABULARY.types
    ensures LocalOk(m, v) <==>
      ((forall k :: k in m ==> !Unknown(k)) && RefIsLocal(m) && TypesAreNames(m) && ContainersAreLimited(m) && FormatIsKnown(m))
  {
    KeysAre(m); RefsAre(m); ListsAre(m, v); FormatsAre(m);
    DeclaredAre(m, OBJECT); DeclaredAre(m, ARRAY);
  }

  lemma LocalChecks(m: Fields)
    ensures LocalOk(m, VOCABULARY) <==>
      ((forall k :: k in m ==> !Unknown(k)) && RefIsLocal(m) && TypesAreNames(m) && ContainersAreLimited(m) && FormatIsKnown(m))
  {
    ChecksAre(m, VOCABULARY);
  }
}
