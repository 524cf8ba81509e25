/** The single DynamoDB table: items under a partition key and a sort key, range queries in
    sort-key order, and all-or-nothing transactions with conditions. */
module DynamoTable {
  import opened Wrappers
  import Numerals

  /** Partition keys. Each family writes its own prefix in front of an identifier. */
  datatype Pk =
    | Planning(id: string)
    | Evidence(id: string)
    | Hash(id: string)
    | Source(id: string)
    | SourceRef(id: string)
    | DupRef(id: string)
    | EvidenceSignal(id: string)

  function Prefix(pk: Pk): string {
    match pk
    case Planning(_) => "PLANNING#"
    case Evidence(_) => "EVIDENCE#"
    case Hash(_) => "HASH#"
    case Source(_) => "SOURCE#"
    case SourceRef(_) => "SOURCE_REF#"
    case DupRef(_) => "DUP_REF#"
    case EvidenceSignal(_) => "EVIDENCE_SIGNAL#"
  }

  /** The partition key as stored. */
  function PkText(pk: Pk): string { Prefix(pk) + pk.id }

  lemma SameHash(p: string, a: string, q: string, b: string)
    requires p + a == q + b && |p| > 0 && |q| > 0
    requires p[|p| - 1] == '#' && q[|q| - 1] == '#'
    requires forall i :: 0 <= i < |p| - 1 ==> p[i] != '#'
    requires forall i :: 0 <= i < |q| - 1 ==> q[i] != '#'
    ensures p == q && a == b
  {
    var s := p + a;
    assert s[|p| - 1] == '#' && s[|q| - 1] == '#';
    assert forall i :: 0 <= i < |p| - 1 ==> s[i] != '#';
    assert forall i :: 0 <= i < |q| - 1 ==> s[i] != '#';
    assert s[..|p|] == p && s[|p|..] == a && s[..|q|] == q && s[|q|..] == b;
  }

  lemma PrefixShape(pk: Pk)
    ensures |Prefix(pk)| > 0 && Prefix(pk)[|Prefix(pk)| - 1] == '#'
    ensures forall i :: 0 <= i < |Prefix(pk)| - 1 ==> Prefix(pk)[i] != '#'
  {
  }

  /** No two partitions share a stored key, whatever the identifiers contain. */
  lemma PkTextInjective(a: Pk, b: Pk)
    requires PkText(a) == PkText(b)
    ensures a == b
  {
    PrefixShape(a);
    PrefixShape(b);
    SameHash(Prefix(a), a.id, Prefix(b), b.id);
    if a.Evidence? { assert Prefix(b)[0] == 'E' && |Prefix(b)| == 9; }
    if a.Source? { assert |Prefix(b)| == 7; }
  }

  datatype Key = Key(pk: Pk, sk: string)

  type Items<T> = map<Key, T>

  function Lookup<T>(items: Items<T>, k: Key): Option<T> { if k in items then Some(items[k]) else None }

  // ---- Queries ----------------------------------------------------------------------

  predicate IsLeast(m: string, s: set<string>) {
    m in s && forall x :: x in s ==> x == m || Numerals.Less(m, x)
  }

  lemma {:induction false} LeastExists(s: set<string>)
    requires s != {}
    ensures exists m :: IsLeast(m, s)
  {
    var x :| x in s;
    if s == {x} {
      assert IsLeast(x, s);
    } else {
      LeastExists(s - {x});
      var m :| IsLeast(m, s - {x});
      Numerals.LessTotal(m, x);
      if Numerals.Less(m, x) {
        assert IsLeast(m, s);
      } else {
        forall y | y in s && y != x ensures Numerals.Less(x, y) {
          if y != m { Numerals.LessTransitive(x, m, y); }
        }
        assert IsLeast(x, s);
      }
    }
  }

  lemma LeastUnique(a: string, b: string, s: set<string>)
    requires IsLeast(a, s) && IsLeast(b, s)
    ensures a == b
  {
    if a != b {
      Numerals.LessTransitive(a, b, a);
      Numerals.LessIrreflexive(a);
    }
  }

  function Least(s: set<string>): (m: string)
    requires s != {}
    ensures IsLeast(m, s)
  {
    LeastExists(s);
    assert forall a, b :: IsLeast(a, s) && IsLeast(b, s) ==> a == b by {
      forall a, b | IsLeast(a, s) && IsLeast(b, s) ensures a == b { LeastUnique(a, b, s); }
    }
    var m :| IsLeast(m, s);
    m
  }

  function SortKeys<T>(items: Items<T>, pk: Pk, prefix: string): set<string> {
    set k | k in items && k.pk == pk && prefix <= k.sk :: k.sk
  }

  function Rows<T>(items: Items<T>, pk: Pk, sks: set<string>): seq<(string, T)>
    requires forall sk :: sk in sks ==> Key(pk, sk) in items
    decreases |sks|
  {
    if sks == {} then []
    else
      var first := Least(sks);
      [(first, items[Key(pk, first)])] + Rows(items, pk, sks - {first})
  }

  /** A query on one partition and a sort-key prefix: every matching item, in key order. */
  function Query<T>(items: Items<T>, pk: Pk, prefix: string): seq<(string, T)> {
    Rows(items, pk, SortKeys(items, pk, prefix))
  }

  /** Listing the keys in increasing order gives the rows. */
  lemma {:induction false} RowsAre<T>(items: Items<T>, pk: Pk, s: set<string>, sks: seq<string>)
    requires forall sk :: sk in s ==> Key(pk, sk) in items
    requires forall sk :: sk in sks <==> sk in s
    requires forall i, j :: 0 <= i < j < |sks| ==> Numerals.Less(sks[i], sks[j])
    ensures |Rows(items, pk, s)| == |sks|
    ensures forall i :: 0 <= i < |sks| ==>
      Key(pk, sks[i]) in items && Rows(items, pk, s)[i] == (sks[i], items[Key(pk, sks[i])])
    decreases |sks|
  {
    if sks == [] {
      assert forall sk :: sk !in s;
    } else {
      assert sks[0] in s;
      assert IsLeast(sks[0], s);
      LeastUnique(sks[0], Least(s), s);
      var rest := s - {sks[0]};
      forall sk ensures sk in sks[1..] <==> sk in rest {
        if sk in sks[1..] {
          var i :| 0 <= i < |sks[1..]| && sks[1..][i] == sk;
          assert sk == sks[i + 1];
          Numerals.LessIrreflexive(sk);
        }
      }
      RowsAre(items, pk, rest, sks[1..]);
    }
  }

  /** Reading a query off the key set alone. */
  lemma QueryIs<T>(items: Items<T>, pk: Pk, prefix: string, sks: seq<string>)
    requires forall i, j :: 0 <= i < j < |sks| ==> Numerals.Less(sks[i], sks[j])
    requires forall sk :: sk in sks <==> Key(pk, sk) in items && prefix <= sk
    ensures |Query(items, pk, prefix)| == |sks|
    ensures forall i :: 0 <= i < |sks| ==>
      Key(pk, sks[i]) in items && Query(items, pk, prefix)[i] == (sks[i], items[Key(pk, sks[i])])
  {
    var s := SortKeys(items, pk, prefix);
    forall sk ensures sk in sks <==> sk in s {
      if sk in sks { assert Key(pk, sk) in items; }
    }
    RowsAre(items, pk, s, sks);
  }

  /** A count query is positive exactly when something matches. */
  lemma QueryFindsSome<T>(items: Items<T>, pk: Pk, prefix: string)
    ensures Query(items, pk, prefix) != [] <==> exists sk :: Key(pk, sk) in items && prefix <= sk
  {
    var s := SortKeys(items, pk, prefix);
    if sk :| Key(pk, sk) in items && prefix <= sk {
      assert Key(pk, sk).sk in s;
    }
    if s != {} {
      var sk :| sk in s;
      assert Key(pk, sk) in items;
    }
  }

  /** Every row of a query is an item of the partition, no item twice, and none is missed. */
  lemma {:induction false} RowsCover<T>(items: Items<T>, pk: Pk, s: set<string>)
    requires forall sk :: sk in s ==> Key(pk, sk) in items
    ensures forall i :: 0 <= i < |Rows(items, pk, s)| ==>
      Rows(items, pk, s)[i].0 in s && Rows(items, pk, s)[i].1 == items[Key(pk, Rows(items, pk, s)[i].0)]
    ensures forall sk :: sk in s ==> (sk, items[Key(pk, sk)]) in Rows(items, pk, s)
    ensures forall i, j :: 0 <= i < j < |Rows(items, pk, s)| ==> Rows(items, pk, s)[i].0 != Rows(items, pk, s)[j].0
    decreases |s|
  {
    if s != {} {
      var first := Least(s);
      var rows, tail := Rows(items, pk, s), Rows(items, pk, s - {first});
      RowsCover(items, pk, s - {first});
      assert rows == [(first, items[Key(pk, first)])] + tail;
    }
  }

  // ---- Transactions -----------------------------------------------------------------

  const MAX_TRANSACTION_ITEMS: nat := 100

  datatype Action<!T> =
    | Put(key: Key, item: T, cond: Option<T> -> bool)
    | Delete(key: Key)
    | Check(key: Key, cond: Option<T> -> bool)

  predicate Always<T>(old_: Option<T>) { true }

  predicate Absent<T>(old_: Option<T>) { old_.None? }

  predicate Present<T>(old_: Option<T>) { old_.Some? }

  predicate Holds<T>(a: Action<T>, items: Items<T>) {
    match a
    case Put(k, _, cond) => cond(Lookup(items, k))
    case Delete(_) => true
    case Check(k, cond) => cond(Lookup(items, k))
  }

  function After<T>(a: Action<T>, before: Option<T>): Option<T> {
    match a
    case Put(_, item, _) => Some(item)
    case Delete(_) => None
    case Check(_, _) => before
  }

  function ApplyOne<T>(items: Items<T>, a: Action<T>): Items<T> {
    match a
    case Put(k, item, _) => items[k := item]
    case Delete(k) => items - {k}
    case Check(_, _) => items
  }

  function ApplyAll<T>(items: Items<T>, actions: seq<Action<T>>): Items<T>
    decreases |actions|
  {
    if actions == [] then items else ApplyAll(ApplyOne(items, actions[0]), actions[1..])
  }

  predicate DistinctTargets<T>(actions: seq<Action<T>>) {
    forall i, j :: 0 <= i < j < |actions| ==> actions[i].key != actions[j].key
  }

  datatype Outcome = Committed | Cancelled | Rejected

  /** `transact_write`: one to a hundred items, no item twice, and every condition met on
      the state before; otherwise nothing is written. */
  function Judge<T>(items: Items<T>, actions: seq<Action<T>>): Outcome {
    if !(1 <= |actions| <= MAX_TRANSACTION_ITEMS) || !DistinctTargets(actions) then Rejected
    else if forall i :: 0 <= i < |actions| ==> Holds(actions[i], items) then Committed
    else Cancelled
  }

  function Transact<T>(items: Items<T>, actions: seq<Action<T>>): Items<T> {
    if Judge(items, actions) == Committed then ApplyAll(items, actions) else items
  }

  lemma {:induction false} ApplyFrame<T>(items: Items<T>, actions: seq<Action<T>>, k: Key)
    requires forall i :: 0 <= i < |actions| ==> actions[i].key != k
    ensures Lookup(ApplyAll(items, actions), k) == Lookup(items, k)
    decreases |actions|
  {
    if actions != [] {
      ApplyFrame(ApplyOne(items, actions[0]), actions[1..], k);
    }
  }

  lemma {:induction false} ApplyEffect<T>(items: Items<T>, actions: seq<Action<T>>, i: nat)
    requires i < |actions| && DistinctTargets(actions)
    ensures Lookup(ApplyAll(items, actions), actions[i].key) == After(actions[i], Lookup(items, actions[i].key))
    decreases i
  {
    if i == 0 {
      ApplyFrame(ApplyOne(items, actions[0]), actions[1..], actions[0].key);
    } else {
      ApplyEffect(ApplyOne(items, actions[0]), actions[1..], i - 1);
    }
  }

  /** The conditions under which a transaction is carried out. */
  predicate Admissible<T>(items: Items<T>, actions: seq<Action<T>>) {
    && 1 <= |actions| <= MAX_TRANSACTION_ITEMS && DistinctTargets(actions)
    && forall i :: 0 <= i < |actions| ==> Holds(actions[i], items)
  }

  /** What is stored under each key afterwards: the target of an action holds its outcome, any
      other key what it held. */
  ghost predicate CarriedOut<T(!new)>(items: Items<T>, actions: seq<Action<T>>, after: Items<T>) {
    && (forall i :: 0 <= i < |actions| ==>
          Lookup(after, actions[i].key) == After(actions[i], Lookup(items, actions[i].key)))
    && forall k: Key :: (forall i :: 0 <= i < |actions| ==> actions[i].key != k) ==> Lookup(after, k) == Lookup(items, k)
  }

  /** All or nothing, and nothing but what was asked for: there is one table that a carried out
      transaction can leave. */
  lemma AllOrNothing<T(!new)>(items: Items<T>, actions: seq<Action<T>>, after: Items<T>)
    ensures !Admissible(items, actions) ==> (Transact(items, actions) == after <==> after == items)
    ensures Admissible(items, actions) ==> (Transact(items, actions) == after <==> CarriedOut(items, actions, after))
    ensures Judge(items, actions) == Committed <==> Admissible(items, actions)
  {
    if Admissible(items, actions) {
      var result := Transact(items, actions);
      forall i | 0 <= i < |actions|
        ensures Lookup(result, actions[i].key) == After(actions[i], Lookup(items, actions[i].key))
      {
        ApplyEffect(items, actions, i);
      }
      forall k: Key | forall i :: 0 <= i < |actions| ==> actions[i].key != k ensures Lookup(result, k) == Lookup(items, k) {
        ApplyFrame(items, actions, k);
      }
      if CarriedOut(items, actions, after) {
        forall k: Key ensures Lookup(result, k) == Lookup(after, k) {
          if i :| 0 <= i < |actions| && actions[i].key == k {
            assert Lookup(after, actions[i].key) == Lookup(result, actions[i].key);
          }
        }
        SameLookups(result, after);
      }
    }
  }

  lemma SameLookups<T>(a: Items<T>, b: Items<T>)
    requires forall k: Key :: Lookup(a, k) == Lookup(b, k)
    ensures a == b
  {
    forall k: Key ensures (k in a <==> k in b) && (k in a ==> a[k] == b[k]) {
      assert Lookup(a, k) == Lookup(b, k);
    }
  }

  /** The table the repositories share. */
  class Table<T> {
    var items: Items<T>

    constructor ()
      ensures items == map[]
    {
      items := map[];
    }

    method GetItem(key: Key) returns (row: Option<T>)
      ensures row == Lookup(items, key)
    {
      row := Lookup(items, key);
    }

    method PutItem(key: Key, item: T)
      modifies this
      ensures items == old(items)[key := item]
    {
      items := items[key := item];
    }

    method DeleteItem(key: Key)
      modifies this
      ensures items == old(items) - {key}
    {
      items := items - {key};
    }

    method QueryRows(pk: Pk, prefix: string) returns (rows: seq<(string, T)>)
      ensures rows == Query(items, pk, prefix)
    {
      rows := Query(items, pk, prefix);
    }

    method TransactWrite(actions: seq<Action<T>>) returns (outcome: Outcome)
      modifies this
      ensures outcome == Judge(old(items), actions) && items == Transact(old(items), actions)
    {
      outcome := Judge(items, actions);
      items := Transact(items, actions);
    }
  }
}
