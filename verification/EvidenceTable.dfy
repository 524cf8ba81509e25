/** How the evidence records lie in the table: a META item and content items per record, a
    lock item per digest, and reference items from sources and canonical records back to the
    evidence that mentions them. */
module EvidenceTable {
  import opened Wrappers
  import opened PrefixCode
  import opened DynamoTable
  import opened EvidenceModel
  import Numerals

  datatype Row =
    | SourceRow
    | SignalRow
    | Lock(canonicalId: string)
    | Meta(record: EvidenceModel.Evidence)
    | Content(chunk: seq<Byte>)
    | Ref(evidenceId: string)

  function SourceKey(source: string): Key { Key(Source(source), "META") }

  function LockKey(digest: string): Key { Key(Hash(digest), "META") }

  function MetaKey(id: string): Key { Key(Pk.Evidence(id), "META") }

  function ContentKey(id: string, i: nat, lib: Library): Key { Key(Pk.Evidence(id), lib.sk(i)) }

  function SourceRefKey(source: string, id: string, lib: Library): Key { Key(SourceRef(source), lib.ref(id)) }

  function DupRefKey(canonical: string, id: string, lib: Library): Key { Key(DupRef(canonical), lib.ref(id)) }

  // ---- The layout ---------------------------------------------------------------------

  function ChunksOf(e: Entry, lib: Library): seq<seq<Byte>> {
    if e.text.Some? && lib.split(e.text.value).Success? then lib.split(e.text.value).value else []
  }

  function ContentAt(e: Entry, lib: Library, sk: string): Option<Row> {
    var i := lib.index(sk);
    if lib.sk(i) == sk && i < |ChunksOf(e, lib)| then Some(Content(ChunksOf(e, lib)[i])) else None
  }

  /** The record a reference item stands for. */
  function RefAt(m: Model, lib: Library, sk: string): Option<string> {
    if lib.ref(lib.unref(sk)) == sk && lib.unref(sk) in m.entries then Some(lib.unref(sk)) else None
  }

  /** What the table holds under a key of the evidence repository. */
  function Expected(m: Model, lib: Library, k: Key): Option<Row> {
    match k.pk
    case Hash(d) => if k.sk == "META" && d in m.locks then Some(Lock(m.locks[d])) else None
    case Evidence(id) =>
      if id !in m.entries then None
      else if k.sk == "META" then Some(Meta(m.entries[id].meta))
      else ContentAt(m.entries[id], lib, k.sk)
    case SourceRef(s) =>
      var x := RefAt(m, lib, k.sk);
      if x.Some? && m.entries[x.value].meta.sourceId == s then Some(Ref(x.value)) else None
    case DupRef(c) =>
      var x := RefAt(m, lib, k.sk);
      if x.Some? && m.entries[x.value].meta.duplicateOf == Some(c) then Some(Ref(x.value)) else None
    case _ => None
  }

  predicate Owned(pk: Pk) { pk.Hash? || pk.Evidence? || pk.SourceRef? || pk.DupRef? }

  /** The items of the repository are exactly those of the model: no lock, record, content or
      reference is missing and none is left over. */
  ghost predicate Represents(items: Items<Row>, m: Model, lib: Library) {
    forall k: Key :: Owned(k.pk) ==> Lookup(items, k) == Expected(m, lib, k)
  }

  /** Items of other repositories. */
  ghost predicate SameElsewhere(a: Items<Row>, b: Items<Row>) {
    forall k: Key :: !Owned(k.pk) ==> Lookup(a, k) == Lookup(b, k)
  }

  predicate HasSource(items: Items<Row>, source: string) { SourceKey(source) in items }

  function Linked(items: Items<Row>): set<string> { set k | k in items && k.pk.EvidenceSignal? :: k.pk.id }

  // ---- Reading ------------------------------------------------------------------------

  function ContentsOf(rows: seq<(string, Row)>): seq<seq<Byte>> {
    seq(|rows|, i requires 0 <= i < |rows| => if rows[i].1.Content? then rows[i].1.chunk else [])
  }

  lemma ContentQuery(items: Items<Row>, m: Model, lib: Library, id: string)
    requires lib.Lawful() && Coherent(m, lib) && Represents(items, m, lib) && id in m.entries
    ensures ContentsOf(Query(items, Pk.Evidence(id), CONTENT_PREFIX)) == ChunksOf(m.entries[id], lib)
  {
    var chunks := ChunksOf(m.entries[id], lib);
    var sks := seq(|chunks|, i requires 0 <= i < |chunks| => lib.sk(i));
    assert GoodEntry(m, id, lib);
    forall sk ensures sk in sks <==> Key(Pk.Evidence(id), sk) in items && CONTENT_PREFIX <= sk {
      var k := Key(Pk.Evidence(id), sk);
      assert Lookup(items, k) == Expected(m, lib, k);
      if sk in sks {
        var i :| 0 <= i < |sks| && sks[i] == sk;
        assert lib.index(lib.sk(i)) == i;
      }
      if k in items && CONTENT_PREFIX <= sk {
        assert sk[0] == 'C' && sk != "META";
        assert sks[lib.index(sk)] == sk;
      }
    }
    QueryIs(items, Pk.Evidence(id), CONTENT_PREFIX, sks);
    forall i | 0 <= i < |chunks| ensures Lookup(items, ContentKey(id, i, lib)) == Some(Content(chunks[i])) {
      assert lib.index(lib.sk(i)) == i;
    }
  }

  /** `get`, from the items. */
  function Fetch(items: Items<Row>, id: string, lib: Library): Found {
    var row := Lookup(items, MetaKey(id));
    if row.None? then Missing
    else if !row.value.Meta? || !row.value.record.Valid() then Broken
    else if row.value.record.reference != Some(CHUNKS) then Found.Present(row.value.record)
    else
      match lib.join(ContentsOf(Query(items, Pk.Evidence(id), CONTENT_PREFIX)))
      case Failure(_) => Broken
      case Success(text) => Found.Present(row.value.record.(content := Some(text), reference := None))
  }

  /** Reading the items gives what the model says: the chunks come back in order. */
  lemma FetchReads(items: Items<Row>, m: Model, lib: Library, id: string)
    requires lib.Lawful() && Coherent(m, lib) && Represents(items, m, lib)
    ensures Fetch(items, id, lib) == Read(m, id)
  {
    assert Lookup(items, MetaKey(id)) == Expected(m, lib, MetaKey(id));
    if id in m.entries {
      assert GoodEntry(m, id, lib);
      ContentQuery(items, m, lib, id);
    }
  }

  lemma DuplicatesCounted(items: Items<Row>, m: Model, lib: Library, id: string)
    requires lib.Lawful() && Represents(items, m, lib)
    ensures Query(items, DupRef(id), "") != [] <==> HasDuplicates(m, id)
  {
    QueryFindsSome(items, DupRef(id), "");
    if x :| x in m.entries && m.entries[x].meta.duplicateOf == Some(id) {
      assert Lookup(items, DupRefKey(id, x, lib)) == Expected(m, lib, DupRefKey(id, x, lib));
    }
    if sk :| Key(DupRef(id), sk) in items && "" <= sk {
      assert Lookup(items, Key(DupRef(id), sk)) == Expected(m, lib, Key(DupRef(id), sk));
    }
  }

  lemma SignalsCounted(items: Items<Row>, id: string)
    ensures Query(items, EvidenceSignal(id), "") != [] <==> id in Linked(items)
  {
    QueryFindsSome(items, EvidenceSignal(id), "");
    if sk :| Key(EvidenceSignal(id), sk) in items && "" <= sk {
      assert Key(EvidenceSignal(id), sk).pk.EvidenceSignal?;
    }
    if id in Linked(items) {
      var k :| k in items && k.pk.EvidenceSignal? && k.pk.id == id;
      assert Key(EvidenceSignal(id), k.sk) == k;
    }
  }

  function RefIds(rows: seq<(string, Row)>): seq<string> {
    seq(|rows|, i requires 0 <= i < |rows| => if rows[i].1.Ref? then rows[i].1.evidenceId else "")
  }

  ghost predicate IsListOf(ids: seq<string>, s: set<string>) {
    && (forall i, j :: 0 <= i < j < |ids| ==> ids[i] != ids[j])
    && (forall x :: x in ids <==> x in s)
  }

  /** The reference items of a canonical record list its duplicates, each once. */
  lemma DuplicatesListed(items: Items<Row>, m: Model, lib: Library, c: string)
    requires lib.Lawful() && Represents(items, m, lib)
    ensures IsListOf(RefIds(Query(items, DupRef(c), "")), DuplicatesOf(m, c))
  {
    var rows, ids := Query(items, DupRef(c), ""), RefIds(Query(items, DupRef(c), ""));
    RowsCover(items, DupRef(c), SortKeys(items, DupRef(c), ""));
    forall i | 0 <= i < |rows|
      ensures rows[i].0 == lib.ref(ids[i]) && ids[i] in DuplicatesOf(m, c)
    {
      assert rows[i] in rows;
      var k := Key(DupRef(c), rows[i].0);
      assert Lookup(items, k) == Expected(m, lib, k) == Some(rows[i].1);
    }
    forall x | x in DuplicatesOf(m, c) ensures x in ids {
      var k := DupRefKey(c, x, lib);
      assert Lookup(items, k) == Expected(m, lib, k) == Some(Ref(x));
      assert k.sk in SortKeys(items, DupRef(c), "");
      var i :| 0 <= i < |rows| && rows[i] == (k.sk, items[k]);
      assert ids[i] == x;
    }
  }

  // ---- Writing ------------------------------------------------------------------------

  /** The content items of the transaction. */
  function PutChunks(id: string, chunks: seq<seq<Byte>>, lib: Library): seq<Action<Row>> {
    seq(|chunks|, i requires 0 <= i < |chunks| => Put(ContentKey(id, i, lib), Content(chunks[i]), Always))
  }

  /** Storing an original: the source must exist, the digest must not be locked. */
  function OriginalActions(e: EvidenceModel.Evidence, chunks: seq<seq<Byte>>, lib: Library): seq<Action<Row>> {
    [Check(SourceKey(e.sourceId), DynamoTable.Present),
     Put(LockKey(e.contentHash), Lock(e.id), Absent),
     Put(MetaKey(e.id), Meta(Stored(e)), Absent),
     Put(SourceRefKey(e.sourceId, e.id, lib), Ref(e.id), Always)]
    + PutChunks(e.id, chunks, lib)
  }

  function RecordActions(e: EvidenceModel.Evidence, canonical: string, lib: Library): seq<Action<Row>> {
    [Put(MetaKey(e.id), Meta(Stored(e)), Absent),
     Put(SourceRefKey(e.sourceId, e.id, lib), Ref(e.id), Always),
     Put(DupRefKey(canonical, e.id, lib), Ref(e.id), Always)]
  }

  /** Storing a duplicate. After a lost race the source is not checked again. */
  function DuplicateActions(e: EvidenceModel.Evidence, canonical: string, checked: bool, lib: Library): seq<Action<Row>> {
    (if checked then [Check(SourceKey(e.sourceId), DynamoTable.Present)] else []) + RecordActions(e, canonical, lib)
  }

  lemma OriginalShape(e: EvidenceModel.Evidence, chunks: seq<seq<Byte>>, lib: Library)
    requires lib.Lawful() && |chunks| <= 5
    ensures var actions := OriginalActions(e, chunks, lib);
      && 1 <= |actions| <= MAX_TRANSACTION_ITEMS && DistinctTargets(actions)
      && forall i: nat :: i < |chunks| ==> actions[4 + i] == Put(ContentKey(e.id, i, lib), Content(chunks[i]), Always)
  {
    var actions := OriginalActions(e, chunks, lib);
    forall i, j | 0 <= i < j < |actions| ensures actions[i].key != actions[j].key {
      if j >= 4 {
        assert actions[j].key == ContentKey(e.id, j - 4, lib) && lib.index(lib.sk(j - 4)) == j - 4;
        if i >= 4 { assert lib.index(lib.sk(i - 4)) == i - 4; }
      }
    }
  }

  /** The transaction for an original goes through exactly when the source exists, nobody
      holds the digest and the identifier is new. */
  lemma OriginalJudged(items: Items<Row>, m: Model, lib: Library, e: EvidenceModel.Evidence, chunks: seq<seq<Byte>>)
    requires lib.Lawful() && Represents(items, m, lib) && |chunks| <= 5
    ensures Judge(items, OriginalActions(e, chunks, lib))
         == if HasSource(items, e.sourceId) && e.contentHash !in m.locks && e.id !in m.entries then Committed else Cancelled
  {
    var actions := OriginalActions(e, chunks, lib);
    OriginalShape(e, chunks, lib);
    assert Lookup(items, LockKey(e.contentHash)) == Expected(m, lib, LockKey(e.contentHash));
    assert Lookup(items, MetaKey(e.id)) == Expected(m, lib, MetaKey(e.id));
    assert Holds(actions[0], items) <==> HasSource(items, e.sourceId);
    assert Holds(actions[1], items) <==> e.contentHash !in m.locks;
    assert Holds(actions[2], items) <==> e.id !in m.entries;
    assert forall i :: 3 <= i < |actions| ==> Holds(actions[i], items);
  }

  /** A key of the repository that the store of `e` does not write means the same after it. */
  lemma AddElsewhere(m: Model, lib: Library, e: EvidenceModel.Evidence, k: Key)
    requires lib.Lawful() && e.id !in m.entries && Owned(k.pk)
    requires k != MetaKey(e.id) && k != SourceRefKey(e.sourceId, e.id, lib)
    requires k != if e.duplicateOf.Some? then DupRefKey(e.duplicateOf.value, e.id, lib) else LockKey(e.contentHash)
    requires forall i: nat :: i < |ChunksOf(Entry(Stored(e), e.content), lib)| ==> k != ContentKey(e.id, i, lib)
    ensures Expected(Add(m, e), lib, k) == Expected(m, lib, k)
  {
    if k.pk == Pk.Evidence(e.id) && lib.index(k.sk) < |ChunksOf(Entry(Stored(e), e.content), lib)| {
      assert k != ContentKey(e.id, lib.index(k.sk), lib);
    }
  }

  lemma OriginalWritten(items: Items<Row>, m: Model, lib: Library, e: EvidenceModel.Evidence, chunks: seq<seq<Byte>>, k: Key)
    requires lib.Lawful() && Represents(items, m, lib) && |chunks| <= 5
    requires e.id !in m.entries && e.duplicateOf.None? && chunks == ChunksOf(Entry(Stored(e), e.content), lib)
    ensures var after := ApplyAll(items, OriginalActions(e, chunks, lib));
      Lookup(after, k) == if Owned(k.pk) then Expected(Add(m, e), lib, k) else Lookup(items, k)
  {
    var actions := OriginalActions(e, chunks, lib);
    OriginalShape(e, chunks, lib);
    if i :| 0 <= i < |actions| && actions[i].key == k {
      ApplyEffect(items, actions, i);
      if i >= 4 { assert lib.index(lib.sk(i - 4)) == i - 4; }
    } else {
      ApplyFrame(items, actions, k);
      if Owned(k.pk) {
        assert actions[1].key != k && actions[2].key != k && actions[3].key != k;
        forall i: nat | i < |chunks| ensures k != ContentKey(e.id, i, lib) { assert actions[4 + i].key != k; }
        AddElsewhere(m, lib, e, k);
        assert Lookup(items, k) == Expected(m, lib, k);
      }
    }
  }

  /** Effect of the transaction for an original. */
  lemma OriginalStored(items: Items<Row>, m: Model, lib: Library, e: EvidenceModel.Evidence, chunks: seq<seq<Byte>>)
    requires lib.Lawful() && Represents(items, m, lib) && |chunks| <= 5
    requires e.id !in m.entries && e.duplicateOf.None? && chunks == ChunksOf(Entry(Stored(e), e.content), lib)
    ensures var after := ApplyAll(items, OriginalActions(e, chunks, lib));
      Represents(after, Add(m, e), lib) && SameElsewhere(items, after)
  {
    forall k: Key
      ensures Lookup(ApplyAll(items, OriginalActions(e, chunks, lib)), k)
           == if Owned(k.pk) then Expected(Add(m, e), lib, k) else Lookup(items, k)
    {
      OriginalWritten(items, m, lib, e, chunks, k);
    }
  }

  lemma DuplicateShape(e: EvidenceModel.Evidence, c: string, checked: bool, lib: Library)
    ensures var actions, n := DuplicateActions(e, c, checked, lib), if checked then 1 else 0;
      && |actions| == n + 3 && DistinctTargets(actions)
      && (checked ==> actions[0] == Check(SourceKey(e.sourceId), DynamoTable.Present))
      && actions[n] == Put(MetaKey(e.id), Meta(Stored(e)), Absent)
      && actions[n + 1] == Put(SourceRefKey(e.sourceId, e.id, lib), Ref(e.id), Always)
      && actions[n + 2] == Put(DupRefKey(c, e.id, lib), Ref(e.id), Always)
  {
  }

  /** The transaction for a duplicate goes through exactly when the identifier is new and,
      where that is checked, the source exists. */
  lemma DuplicateJudged(items: Items<Row>, m: Model, lib: Library, e: EvidenceModel.Evidence, c: string, checked: bool)
    requires Represents(items, m, lib)
    ensures Judge(items, DuplicateActions(e, c, checked, lib))
         == if (checked ==> HasSource(items, e.sourceId)) && e.id !in m.entries then Committed else Cancelled
  {
    var actions, n := DuplicateActions(e, c, checked, lib), if checked then 1 else 0;
    DuplicateShape(e, c, checked, lib);
    assert Lookup(items, MetaKey(e.id)) == Expected(m, lib, MetaKey(e.id));
    assert checked ==> (Holds(actions[0], items) <==> HasSource(items, e.sourceId));
    assert Holds(actions[n], items) <==> e.id !in m.entries;
    assert Holds(actions[n + 1], items) && Holds(actions[n + 2], items);
  }

  lemma DuplicateWritten(items: Items<Row>, m: Model, lib: Library, e: EvidenceModel.Evidence, c: string, checked: bool, k: Key)
    requires lib.Lawful() && Represents(items, m, lib)
    requires e.id !in m.entries && e.duplicateOf == Some(c) && e.content.None?
    ensures var after := ApplyAll(items, DuplicateActions(e, c, checked, lib));
      Lookup(after, k) == if Owned(k.pk) then Expected(Add(m, e), lib, k) else Lookup(items, k)
  {
    var actions, n := DuplicateActions(e, c, checked, lib), if checked then 1 else 0;
    DuplicateShape(e, c, checked, lib);
    if i :| 0 <= i < |actions| && actions[i].key == k {
      ApplyEffect(items, actions, i);
    } else {
      ApplyFrame(items, actions, k);
      if Owned(k.pk) {
        assert actions[n].key != k && actions[n + 1].key != k && actions[n + 2].key != k;
        AddElsewhere(m, lib, e, k);
        assert Lookup(items, k) == Expected(m, lib, k);
      }
    }
  }

  /** Effect of the transaction for a duplicate. */
  lemma DuplicateStored(items: Items<Row>, m: Model, lib: Library, e: EvidenceModel.Evidence, c: string, checked: bool)
    requires lib.Lawful() && Represents(items, m, lib)
    requires e.id !in m.entries && e.duplicateOf == Some(c) && e.content.None?
    ensures var after := ApplyAll(items, DuplicateActions(e, c, checked, lib));
      Represents(after, Add(m, e), lib) && SameElsewhere(items, after)
  {
    forall k: Key
      ensures Lookup(ApplyAll(items, DuplicateActions(e, c, checked, lib)), k)
           == if Owned(k.pk) then Expected(Add(m, e), lib, k) else Lookup(items, k)
    {
      DuplicateWritten(items, m, lib, e, c, checked, k);
    }
  }

  /** Rewriting a META item. */
  lemma MetaRewritten(items: Items<Row>, m: Model, lib: Library, e: EvidenceModel.Evidence)
    requires Represents(items, m, lib) && e.id in m.entries
    requires e.sourceId == m.entries[e.id].meta.sourceId && e.duplicateOf == m.entries[e.id].meta.duplicateOf
    ensures var after := items[MetaKey(e.id) := Meta(Stored(e))];
      Represents(after, PutRecord(m, e, m.entries[e.id].text), lib) && SameElsewhere(items, after)
  {
    var after, m' := items[MetaKey(e.id) := Meta(Stored(e))], PutRecord(m, e, m.entries[e.id].text);
    forall k: Key | Owned(k.pk) ensures Lookup(after, k) == Expected(m', lib, k) {
      assert Lookup(items, k) == Expected(m, lib, k);
    }
  }

  predicate IsContentOf(k: Key, id: string) { k.pk == Pk.Evidence(id) && CONTENT_PREFIX <= k.sk }

  /** `_delete_chunks` leaves everything but the content items of one record. */
  ghost predicate ContentGone(items: Items<Row>, after: Items<Row>, id: string) {
    forall k: Key :: Lookup(after, k) == if IsContentOf(k, id) then None else Lookup(items, k)
  }

  lemma ContentRemoved(items: Items<Row>, after: Items<Row>, m: Model, lib: Library, id: string)
    requires lib.Lawful() && Represents(items, m, lib) && ContentGone(items, after, id) && id in m.entries
    ensures Represents(after, m.(entries := m.entries[id := m.entries[id].(text := None)]), lib)
    ensures SameElsewhere(items, after)
  {
    var m' := m.(entries := m.entries[id := m.entries[id].(text := None)]);
    forall k: Key | Owned(k.pk) ensures Lookup(after, k) == Expected(m', lib, k) {
      assert Lookup(items, k) == Expected(m, lib, k);
      if IsContentOf(k, id) { assert k.sk[0] == 'C' && k.sk != "META"; }
      if k.pk == Pk.Evidence(id) && k.sk != "META" && !IsContentOf(k, id) {
        assert lib.sk(lib.index(k.sk)) != k.sk;
      }
    }
  }

  /** The keys `delete` removes after the content items. */
  function RecordKeys(e: EvidenceModel.Evidence, lib: Library): set<Key> {
    {MetaKey(e.id), SourceRefKey(e.sourceId, e.id, lib),
     if e.duplicateOf.Some? then DupRefKey(e.duplicateOf.value, e.id, lib) else LockKey(e.contentHash)}
  }

  lemma DeleteElsewhere(m: Model, lib: Library, id: string, k: Key)
    requires lib.Lawful() && id in m.entries && m.entries[id].text.None? && Owned(k.pk)
    requires k !in RecordKeys(m.entries[id].meta, lib) && m.entries[id].meta.id == id
    ensures Expected(Drop(m, id), lib, k) == Expected(m, lib, k)
  {
    assert m.entries[id].meta.duplicateOf.None? ==> k != LockKey(m.entries[id].meta.contentHash);
    assert k != MetaKey(id) && k != SourceRefKey(m.entries[id].meta.sourceId, id, lib);
  }

  /** Effect of `delete` on a record whose content items are gone. */
  lemma RecordDeleted(items: Items<Row>, m: Model, lib: Library, id: string)
    requires lib.Lawful() && Represents(items, m, lib) && id in m.entries
    requires m.entries[id].text.None? && m.entries[id].meta.id == id
    ensures var after := items - RecordKeys(m.entries[id].meta, lib);
      Represents(after, Drop(m, id), lib) && SameElsewhere(items, after)
  {
    var e := m.entries[id].meta;
    var after, m' := items - RecordKeys(e, lib), Drop(m, id);
    forall k: Key | Owned(k.pk) ensures Lookup(after, k) == Expected(m', lib, k) {
      assert Lookup(items, k) == Expected(m, lib, k);
      if k !in RecordKeys(e, lib) { DeleteElsewhere(m, lib, id, k); }
    }
  }

  function ItemKeys(rows: seq<(string, Row)>, pk: Pk): set<Key> {
    set i | 0 <= i < |rows| :: Key(pk, rows[i].0)
  }

  lemma ContentKeysGone(items: Items<Row>, id: string)
    ensures var rows := Query(items, Pk.Evidence(id), CONTENT_PREFIX);
      ContentGone(items, items - ItemKeys(rows, Pk.Evidence(id)), id)
  {
    var rows := Query(items, Pk.Evidence(id), CONTENT_PREFIX);
    var s := SortKeys(items, Pk.Evidence(id), CONTENT_PREFIX);
    RowsCover(items, Pk.Evidence(id), s);
    forall k: Key | k in items ensures k in ItemKeys(rows, Pk.Evidence(id)) <==> IsContentOf(k, id) {
      if IsContentOf(k, id) {
        assert k.sk in s && (k.sk, items[k]) in rows;
        var i :| 0 <= i < |rows| && rows[i] == (k.sk, items[k]);
        assert Key(Pk.Evidence(id), rows[i].0) == k;
      }
    }
  }

  /** `remove_raw_content` on the items: the content items go, the META item is rewritten. */
  lemma RawRemoved(items: Items<Row>, after: Items<Row>, m: Model, lib: Library, id: string)
    requires lib.Lawful() && Coherent(m, lib) && Represents(items, m, lib) && ContentGone(items, after, id)
    requires Read(m, id).Present? && !Read(m, id).value.legalHold
    ensures var e := Read(m, id).value.(content := None, structured := None, reference := Some(REMOVED));
      var done := after[MetaKey(id) := Meta(Stored(e))];
      Represents(done, RemoveRaw(m, id), lib) && SameElsewhere(items, done)
  {
    var e := Read(m, id).value.(content := None, structured := None, reference := Some(REMOVED));
    var m1 := m.(entries := m.entries[id := m.entries[id].(text := None)]);
    ReadIdentity(m, id, lib);
    ContentRemoved(items, after, m, lib, id);
    MetaRewritten(after, m1, lib, e);
    assert PutRecord(m1, e, None) == PutRecord(m, e, None);
  }

  /** `delete` on the items: the content items go first, then the record and what refers to it. */
  lemma EvidenceDeleted(items: Items<Row>, after: Items<Row>, m: Model, lib: Library, id: string)
    requires lib.Lawful() && Coherent(m, lib) && Represents(items, m, lib) && ContentGone(items, after, id)
    requires id in m.entries
    ensures var done := after - RecordKeys(m.entries[id].meta, lib);
      Represents(done, Drop(m, id), lib) && SameElsewhere(items, done)
  {
    var m1 := m.(entries := m.entries[id := m.entries[id].(text := None)]);
    ContentRemoved(items, after, m, lib, id);
    assert GoodEntry(m, id, lib);
    RecordDeleted(after, m1, lib, id);
    assert Drop(m1, id) == Drop(m, id);
  }
}
