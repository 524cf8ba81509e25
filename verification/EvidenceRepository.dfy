/** The evidence repository over the table. Every method is proved to do to the items what
    its counterpart in `EvidenceModel` does to the records. */
module EvidenceRepository {
  import opened Wrappers
  import opened PrefixCode
  import opened DynamoTable
  import opened EvidenceModel
  import opened EvidenceTable
  import Chunking
  import Json
  import Numerals
  import Text_ = Text
  import Utf8

  // ---- The functions behind the repository --------------------------------------------

  /** `chunk_content`, see `Chunking.ChunkContent`. */
  function Split(t: Text): Result<seq<seq<Byte>>, Chunking.ContentError> {
    Utf8.Utf8IsLawful();
    if !Chunking.Encodable(t) then Failure(Chunking.NotEncodable)
    else if |Encode(Utf8.UTF8, Chunking.Scalars(t))| > Chunking.MAX_EVIDENCE_BYTES then Failure(Chunking.TooLarge)
    else Success(Chunking.GreedyChunks(Utf8.UTF8, Chunking.Scalars(t)))
  }

  /** `reconstruct_content`. */
  function Join(chunks: seq<seq<Byte>>): Result<Text, Chunking.ContentError> {
    Chunking.Reconstruct(Utf8.UTF8, chunks)
  }

  function ContentSk(i: nat): string { CONTENT_PREFIX + Numerals.Padded(i, 6) }

  function ContentIndex(sk: string): nat {
    if |sk| > |CONTENT_PREFIX| && forall i :: |CONTENT_PREFIX| <= i < |sk| ==> Numerals.IsDigit(sk[i])
    then Numerals.Value(sk[|CONTENT_PREFIX|..]) else 0
  }

  const REF_PREFIX := "EVIDENCE#"

  function DropRefPrefix(sk: string): string { if REF_PREFIX <= sk then sk[|REF_PREFIX|..] else sk }

  /** The functions the repository uses; only the hash and the JSON writer stay unknown. */
  function LibraryOf(sha256: seq<Byte> -> string, dumps: Json.Json -> Text): Library {
    Library(
      t => Text_.Normalize(t),
      Split,
      Join,
      t => if Chunking.Encodable(t) then Some(sha256(Encode(Utf8.UTF8, Chunking.Scalars(t)))) else None,
      dumps,
      ContentSk,
      ContentIndex,
      id => REF_PREFIX + id,
      DropRefPrefix)
  }

  lemma JoinInvertsSplit(t: Text)
    requires Split(t).Success?
    ensures Join(Split(t).value) == Success(t) && |Split(t).value| <= 5
  {
    Chunking.Utf8Chunks(Chunking.Scalars(t));
    assert Chunking.Scalars(t) == t;
  }

  lemma ContentSkShape(i: nat)
    ensures ContentIndex(ContentSk(i)) == i && CONTENT_PREFIX <= ContentSk(i) && ContentSk(i) != "META"
  {
    var digits := Numerals.Padded(i, 6);
    Numerals.ValueOfPadded(i, 6);
    assert ContentSk(i)[|CONTENT_PREFIX|..] == digits;
    assert ContentSk(i)[0] == 'C';
    assert forall j :: |CONTENT_PREFIX| <= j < |ContentSk(i)| ==> ContentSk(i)[j] == digits[j - |CONTENT_PREFIX|];
  }

  lemma ContentSkOrder(i: nat, j: nat)
    requires i < j < 5
    ensures Numerals.Less(ContentSk(i), ContentSk(j))
  {
    assert Numerals.Power10(6) == 1000000 by { assert Numerals.Power10(3) == 1000; }
    Numerals.PaddedOrder(i, j, 6);
    Numerals.LessSamePrefix(CONTENT_PREFIX, Numerals.Padded(i, 6), Numerals.Padded(j, 6));
  }

  /** Normalising is idempotent, chunks join to the text they were cut from, and the sort keys
      keep their order: the laws the repository relies on hold. */
  lemma LibraryIsLawful(sha256: seq<Byte> -> string, dumps: Json.Json -> Text)
    ensures LibraryOf(sha256, dumps).Lawful()
  {
    var lib := LibraryOf(sha256, dumps);
    forall t: Text ensures lib.normalize(lib.normalize(t)) == lib.normalize(t) { Text_.NormalizeIdempotent(t); }
    forall t: Text | lib.split(t).Success?
      ensures lib.join(lib.split(t).value) == Success(t) && |lib.split(t).value| <= 5
    {
      JoinInvertsSplit(t);
    }
    forall i: nat ensures lib.index(lib.sk(i)) == i && CONTENT_PREFIX <= lib.sk(i) && lib.sk(i) != "META" {
      ContentSkShape(i);
    }
    forall i: nat, j: nat | i < j < 5 ensures Numerals.Less(lib.sk(i), lib.sk(j)) { ContentSkOrder(i, j); }
    assert forall id: string :: (REF_PREFIX + id)[|REF_PREFIX|..] == id;
    assert Decode(Utf8.UTF8, Chunking.Concat([])) == Some([]);
  }

  // ---- The repository -----------------------------------------------------------------

  datatype CallError = NotFound | BrokenRecord | Protected | NotCanonical

  /** `_require`. */
  function Required(m: Model, id: string): Result<EvidenceModel.Evidence, CallError> {
    match Read(m, id)
    case Missing => Failure(NotFound)
    case Broken => Failure(BrokenRecord)
    case Present(e) => Success(e)
  }

  datatype Candidate = Candidate(id: string, impact: Impact)

  datatype CleanupResult = CleanupResult(deleted: seq<string>, skipped: seq<Candidate>, canonicalDeleted: bool)

  function Ids(cs: seq<Candidate>): seq<string> { seq(|cs|, i requires 0 <= i < |cs| => cs[i].id) }

  /** A duplicate can always be read, so none of the assessments fails. */
  lemma DuplicateIsReadable(m: Model, c: string, x: string, lib: Library)
    requires Coherent(m, lib) && x in DuplicatesOf(m, c)
    ensures Required(m, x).Success?
  {
    assert EvidenceModel.GoodEntry(m, x, lib);
    OneCanonicalPerDigest(m, lib, x, c);
  }

  lemma IdsExtended(cs: seq<Candidate>, last: Candidate)
    ensures Ids(cs + [last]) == Ids(cs) + [last.id]
  {
  }

  lemma LinkedElsewhere(a: Items<Row>, b: Items<Row>)
    requires SameElsewhere(a, b)
    ensures Linked(a) == Linked(b)
  {
    forall id ensures id in Linked(a) <==> id in Linked(b) {
      if k :| k in a && k.pk.EvidenceSignal? && k.pk.id == id { assert Lookup(a, k) == Lookup(b, k); }
      if k :| k in b && k.pk.EvidenceSignal? && k.pk.id == id { assert Lookup(a, k) == Lookup(b, k); }
    }
  }

  /** The candidates are the duplicates of `c`, each once and each with its impact. */
  ghost predicate Lists(cs: seq<Candidate>, m: Model, c: string, linked: set<string>) {
    && IsListOf(Ids(cs), DuplicatesOf(m, c))
    && forall i :: 0 <= i < |cs| ==> ImpactOf(m, cs[i].id, linked) == Some(cs[i].impact)
  }

  lemma KeysExtended(items: Items<Row>, rows: seq<(string, Row)>, pk: Pk, i: nat)
    requires i < |rows|
    ensures items - ItemKeys(rows[..i + 1], pk) == items - ItemKeys(rows[..i], pk) - {Key(pk, rows[i].0)}
  {
    forall k ensures k in ItemKeys(rows[..i + 1], pk) <==> k in ItemKeys(rows[..i], pk) || k == Key(pk, rows[i].0) {
      if k == Key(pk, rows[i].0) { assert rows[..i + 1][i] == rows[i]; }
      if k in ItemKeys(rows[..i], pk) {
        var j :| 0 <= j < i && k == Key(pk, rows[..i][j].0);
        assert rows[..i + 1][j] == rows[j];
      }
      if k in ItemKeys(rows[..i + 1], pk) && k != Key(pk, rows[i].0) {
        var j :| 0 <= j <= i && k == Key(pk, rows[..i + 1][j].0);
        assert rows[..i][j] == rows[j];
      }
    }
  }

  /** The candidates that can be deleted, and those that cannot. */
  function Removable(cs: seq<Candidate>): seq<string> {
    if cs == [] then []
    else
      var before, last := Removable(cs[..|cs| - 1]), cs[|cs| - 1];
      if last.impact.CanDelete() then before + [last.id] else before
  }

  function Skipped(cs: seq<Candidate>): seq<Candidate> {
    if cs == [] then []
    else
      var before, last := Skipped(cs[..|cs| - 1]), cs[|cs| - 1];
      if last.impact.CanDelete() then before else before + [last]
  }

  ghost function IdSet(cs: seq<Candidate>): set<string> { set i | 0 <= i < |cs| :: cs[i].id }

  lemma IdSetExtended(cs: seq<Candidate>, i: nat)
    requires i < |cs| && forall i, j :: 0 <= i < j < |cs| ==> cs[i].id != cs[j].id
    ensures cs[i].id !in IdSet(cs[..i]) && IdSet(cs[..i + 1]) == IdSet(cs[..i]) + {cs[i].id}
  {
    forall x ensures x in IdSet(cs[..i + 1]) <==> x in IdSet(cs[..i]) || x == cs[i].id {
      if x == cs[i].id { assert cs[..i + 1][i].id == x; }
      if x in IdSet(cs[..i]) {
        var j :| 0 <= j < i && cs[..i][j].id == x;
        assert cs[..i + 1][j].id == x;
      }
      if x in IdSet(cs[..i + 1]) && x != cs[i].id {
        var j :| 0 <= j <= i && cs[..i + 1][j].id == x;
        assert cs[..i][j].id == x;
      }
    }
  }

  /** The two lists split the candidates between them. */
  lemma {:induction false} ListsSplit(cs: seq<Candidate>, removable: set<string>)
    requires forall i, j :: 0 <= i < j < |cs| ==> cs[i].id != cs[j].id
    requires forall i :: 0 <= i < |cs| ==> (cs[i].impact.CanDelete() <==> cs[i].id in removable)
    ensures IsListOf(Removable(cs), IdSet(cs) * removable)
    ensures IsListOf(Ids(Skipped(cs)), IdSet(cs) - removable)
    decreases |cs|
  {
    if cs != [] {
      var n := |cs| - 1;
      var last := cs[n];
      ListsSplit(cs[..n], removable);
      IdSetExtended(cs, n);
      assert cs[..n + 1] == cs;
      ListExtended(Removable(cs[..n]), IdSet(cs[..n]) * removable, last.id);
      ListExtended(Ids(Skipped(cs[..n])), IdSet(cs[..n]) - removable, last.id);
      assert Ids(Skipped(cs[..n]) + [last]) == Ids(Skipped(cs[..n])) + [last.id];
      if last.id in removable {
        assert IdSet(cs) * removable == IdSet(cs[..n]) * removable + {last.id};
        assert IdSet(cs) - removable == IdSet(cs[..n]) - removable;
      } else {
        assert IdSet(cs) * removable == IdSet(cs[..n]) * removable;
        assert IdSet(cs) - removable == IdSet(cs[..n]) - removable + {last.id};
      }
    }
  }

  lemma ListExtended(ids: seq<string>, s: set<string>, x: string)
    requires IsListOf(ids, s) && x !in s
    ensures IsListOf(ids + [x], s + {x})
  {
    assert forall i :: 0 <= i < |ids| ==> ids[i] in ids;
  }

  /** A complete candidate list names every duplicate, and marks exactly the deletable ones. */
  lemma CandidatesAre(cs: seq<Candidate>, m: Model, c: string, linked: set<string>)
    requires Lists(cs, m, c, linked)
    ensures IdSet(cs) == DuplicatesOf(m, c)
    ensures forall i, j :: 0 <= i < j < |cs| ==> cs[i].id != cs[j].id
    ensures forall i :: 0 <= i < |cs| ==> cs[i].id in DuplicatesOf(m, c)
    ensures forall i :: 0 <= i < |cs| ==> (cs[i].impact.CanDelete() <==> cs[i].id in DeletableDuplicates(m, c, linked))
  {
    assert forall i :: 0 <= i < |cs| ==> Ids(cs)[i] == cs[i].id;
    forall x ensures x in IdSet(cs) <==> x in Ids(cs) {
      if x in Ids(cs) { var i :| 0 <= i < |cs| && Ids(cs)[i] == x; assert cs[i].id == x; }
    }
    forall i | 0 <= i < |cs| ensures cs[i].id in DuplicatesOf(m, c) { assert Ids(cs)[i] in Ids(cs); }
  }

  /** The loop over the candidates has dealt with the first `i` of them. */
  ghost predicate Progress(m0: Model, m: Model, c: string, linked: set<string>, cs: seq<Candidate>, i: nat,
                           deleted: seq<string>, skipped: seq<Candidate>)
  {
    && i <= |cs| && Lists(cs, m0, c, linked)
    && m == Without(m0, IdSet(cs[..i]) * DeletableDuplicates(m0, c, linked))
    && deleted == Removable(cs[..i]) && skipped == Skipped(cs[..i])
  }

  lemma ProgressStarts(m0: Model, c: string, linked: set<string>, cs: seq<Candidate>)
    requires Lists(cs, m0, c, linked)
    ensures Progress(m0, m0, c, linked, cs, 0, [], [])
  {
    assert Without(m0, IdSet(cs[..0]) * DeletableDuplicates(m0, c, linked)) == m0;
  }

  lemma ProgressGoesOn(m0: Model, m: Model, c: string, linked: set<string>, cs: seq<Candidate>, i: nat,
                       deleted: seq<string>, skipped: seq<Candidate>, lib: Library)
    requires Coherent(m0, lib) && Progress(m0, m, c, linked, cs, i, deleted, skipped) && i < |cs|
    ensures Deletable(m, cs[i].id, linked) <==> cs[i].impact.CanDelete()
    ensures cs[i].impact.CanDelete() ==>
      Progress(m0, Drop(m, cs[i].id), c, linked, cs, i + 1, deleted + [cs[i].id], skipped)
    ensures !cs[i].impact.CanDelete() ==> Progress(m0, m, c, linked, cs, i + 1, deleted, skipped + [cs[i]])
  {
    CandidatesAre(cs, m0, c, linked);
    assert forall x :: x in IdSet(cs[..i]) ==> x in IdSet(cs);
    IdSetExtended(cs, i);
    CleanupRound(m0, c, IdSet(cs[..i]), cs[i].id, linked, lib);
    assert cs[..i + 1][..i] == cs[..i];
  }

  lemma ProgressEnds(m0: Model, m: Model, c: string, linked: set<string>, cs: seq<Candidate>,
                     deleted: seq<string>, skipped: seq<Candidate>)
    requires Progress(m0, m, c, linked, cs, |cs|, deleted, skipped)
    ensures m == Without(m0, DeletableDuplicates(m0, c, linked))
    ensures IsListOf(deleted, DeletableDuplicates(m0, c, linked))
    ensures IsListOf(Ids(skipped), DuplicatesOf(m0, c) - DeletableDuplicates(m0, c, linked))
  {
    CandidatesAre(cs, m0, c, linked);
    assert cs[..|cs|] == cs;
    assert IdSet(cs) * DeletableDuplicates(m0, c, linked) == DeletableDuplicates(m0, c, linked);
    ListsSplit(cs, DeletableDuplicates(m0, c, linked));
  }

  class Repository {
    const table: Table<Row>
    const lib: Library
    ghost var model: Model

    ghost predicate Valid()
      reads this, table
    {
      lib.Lawful() && Represents(table.items, model, lib) && Coherent(model, lib)
    }

    /** Over an empty table. */
    constructor (table: Table<Row>, lib: Library)
      requires lib.Lawful() && table.items == map[]
      ensures this.table == table && this.lib == lib && model == Model(map[], map[]) && Valid()
    {
      this.table, this.lib, model := table, lib, Model(map[], map[]);
    }

    /** `get`. */
    method Get(id: string) returns (r: Found)
      requires Valid()
      ensures r == Read(model, id)
    {
      FetchReads(table.items, model, lib, id);
      var row := table.GetItem(MetaKey(id));
      assert row == Expected(model, lib, MetaKey(id));
      if row.None? {
        return Missing;
      }
      var record := row.value.record;
      if !record.Valid() {
        return Broken;
      }
      if record.reference != Some(CHUNKS) {
        return Found.Present(record);
      }
      var rows := table.QueryRows(Pk.Evidence(id), CONTENT_PREFIX);
      r := match lib.join(ContentsOf(rows))
        case Failure(_) => Broken
        case Success(text) => Found.Present(record.(content := Some(text), reference := None));
    }

    method Require(id: string) returns (r: Result<EvidenceModel.Evidence, CallError>)
      requires Valid()
      ensures r == Required(model, id)
    {
      var found := Get(id);
      r := match found
        case Missing => Failure(NotFound)
        case Broken => Failure(BrokenRecord)
        case Present(e) => Success(e);
    }

    /** `store`; `id` is the identifier drawn for the new record. */
    method Store(v: Draft, id: string) returns (r: Result<(EvidenceModel.Evidence, bool), StoreError>)
      requires Valid()
      modifies this`model, table
      ensures Valid() && SameElsewhere(old(table.items), table.items)
      ensures r == StoreAnswer(old(model), v, id, old(HasSource(table.items, v.sourceId)), lib)
      ensures model == AfterStore(old(model), v, id, old(HasSource(table.items, v.sourceId)), lib)
    {
      var text := Normalized(v, lib);
      var chunks: seq<seq<Byte>> := [];
      if text.Some? {
        var split := lib.split(text.value);
        if split.Failure? {
          return Failure(BadContent(split.error));
        }
        chunks := split.value;
      }
      var source := table.GetItem(SourceKey(v.sourceId));
      if source.None? {
        return Failure(SourceNotFound);
      }
      if Digest(v, lib).None? {
        return Failure(NotEncodable);
      }
      var digest := Digest(v, lib).value;
      var lock := table.GetItem(LockKey(digest));
      assert lock == Expected(model, lib, LockKey(digest));
      StoreKeepsCoherent(model, v, id, true, lib);
      if lock.Some? {
        var canonical := Get(lock.value.canonicalId);
        if canonical.Broken? {
          return Failure(Unreadable);
        }
        r := StoreDuplicate(Duplicate(v, id, digest, lock.value.canonicalId), lock.value.canonicalId);
      } else {
        r := StoreOriginal(Original(v, id, digest, lib), chunks);
      }
    }

    /** The transaction of a store that found the digest locked. */
    method StoreDuplicate(e: EvidenceModel.Evidence, canonical: string)
      returns (r: Result<(EvidenceModel.Evidence, bool), StoreError>)
      requires lib.Lawful() && Represents(table.items, model, lib)
      requires e.duplicateOf == Some(canonical) && e.content.None? && HasSource(table.items, e.sourceId)
      modifies this`model, table
      ensures Represents(table.items, model, lib) && SameElsewhere(old(table.items), table.items)
      ensures r == if e.id in old(model).entries then Failure(Conflict) else Success((e, true))
      ensures model == if e.id in old(model).entries then old(model) else Add(old(model), e)
    {
      DuplicateJudged(table.items, model, lib, e, canonical, true);
      if e.id !in model.entries {
        DuplicateStored(table.items, model, lib, e, canonical, true);
      }
      var outcome := table.TransactWrite(DuplicateActions(e, canonical, true, lib));
      if outcome != Committed {
        return Failure(Conflict);
      }
      model := Add(model, e);
      r := Success((e, true));
    }

    /** The transaction of a store that found the digest free. With no other caller at work a
        refusal means that the identifier is taken; the lost race is in `EvidenceConcurrency`. */
    method StoreOriginal(e: EvidenceModel.Evidence, chunks: seq<seq<Byte>>)
      returns (r: Result<(EvidenceModel.Evidence, bool), StoreError>)
      requires lib.Lawful() && Represents(table.items, model, lib) && |chunks| <= 5
      requires e.duplicateOf.None? && chunks == ChunksOf(Entry(Stored(e), e.content), lib)
      requires HasSource(table.items, e.sourceId) && e.contentHash !in model.locks
      modifies this`model, table
      ensures Represents(table.items, model, lib) && SameElsewhere(old(table.items), table.items)
      ensures r == if e.id in old(model).entries then Failure(Conflict) else Success((e, false))
      ensures model == if e.id in old(model).entries then old(model) else Add(old(model), e)
    {
      OriginalJudged(table.items, model, lib, e, chunks);
      if e.id !in model.entries {
        OriginalStored(table.items, model, lib, e, chunks);
      }
      var outcome := table.TransactWrite(OriginalActions(e, chunks, lib));
      if outcome != Committed {
        var winner := table.GetItem(LockKey(e.contentHash));
        assert winner == Expected(model, lib, LockKey(e.contentHash)) == None;
        return Failure(Conflict);
      }
      model := Add(model, e);
      r := Success((e, false));
    }

    /** `set_archived`. */
    method SetArchived(id: string, flag: bool) returns (r: Result<EvidenceModel.Evidence, CallError>)
      requires Valid()
      modifies this`model, table
      ensures Valid() && SameElsewhere(old(table.items), table.items)
      ensures model == Archive(old(model), id, flag)
      ensures r == Required(model, id)
    {
      var found := Require(id);
      if found.Failure? {
        return found;
      }
      var e := found.value.(archived := flag);
      ArchiveOnce(model, id, flag, lib);
      ReadIdentity(model, id, lib);
      MetaRewritten(table.items, model, lib, e);
      table.PutItem(MetaKey(id), Meta(Stored(e)));
      model := Archive(model, id, flag);
      r := Success(e);
    }

    /** `deletion_impact`. */
    method DeletionImpact(id: string) returns (r: Result<Impact, CallError>)
      requires Valid()
      ensures Required(model, id).Failure? ==> r == Failure(Required(model, id).error)
      ensures Required(model, id).Success? ==> r.Success? && ImpactOf(model, id, Linked(table.items)) == Some(r.value)
    {
      var found := Require(id);
      if found.Failure? {
        return Failure(found.error);
      }
      var signals := table.QueryRows(EvidenceSignal(id), "");
      var duplicates := table.QueryRows(DupRef(id), "");
      SignalsCounted(table.items, id);
      DuplicatesCounted(table.items, model, lib, id);
      r := Success(Impact(signals != [], duplicates != [], found.value.legalHold, HasRaw(found.value)));
    }

    /** `_delete_chunks`. */
    method DeleteChunks(id: string)
      modifies table
      ensures ContentGone(old(table.items), table.items, id)
    {
      var rows := table.QueryRows(Pk.Evidence(id), CONTENT_PREFIX);
      ghost var pk, before := Pk.Evidence(id), table.items;
      ContentKeysGone(before, id);
      var i := 0;
      while i < |rows|
        invariant i <= |rows| && table.items == before - ItemKeys(rows[..i], pk)
      {
        table.DeleteItem(Key(Pk.Evidence(id), rows[i].0));
        KeysExtended(before, rows, pk, i);
        i := i + 1;
      }
      assert rows[..i] == rows;
    }

    /** `remove_raw_content`. */
    method RemoveRawContent(id: string) returns (r: Result<EvidenceModel.Evidence, CallError>)
      requires Valid()
      modifies this`model, table
      ensures Valid() && SameElsewhere(old(table.items), table.items)
      ensures model == RemoveRaw(old(model), id)
      ensures r == if Required(old(model), id).Success? && Required(old(model), id).value.legalHold
                   then Failure(Protected) else Required(model, id)
    {
      var impact := DeletionImpact(id);
      if impact.Failure? {
        return Failure(impact.error);
      }
      if !impact.value.CanRemoveRaw() {
        return Failure(Protected);
      }
      var found := Require(id);
      var e := found.value.(content := None, structured := None, reference := Some(REMOVED));
      ghost var before := table.items;
      RemoveRawKeepsIdentity(model, id, lib);
      DeleteChunks(id);
      RawRemoved(before, table.items, model, lib, id);
      table.PutItem(MetaKey(id), Meta(Stored(e)));
      model := RemoveRaw(model, id);
      r := Success(e);
    }

    /** `delete`: refused for what is protected, otherwise the record goes with all its items. */
    method DeleteEvidence(id: string) returns (r: Result<(), CallError>)
      requires Valid()
      modifies this`model, table
      ensures Valid() && SameElsewhere(old(table.items), table.items)
      ensures r.Success? <==> Deletable(old(model), id, Linked(old(table.items)))
      ensures r.Failure? ==> r.error == if Required(old(model), id).Failure? then Required(old(model), id).error else Protected
      ensures model == if r.Success? then Drop(old(model), id) else old(model)
    {
      var impact := DeletionImpact(id);
      if impact.Failure? {
        return Failure(impact.error);
      }
      if !impact.value.CanDelete() {
        return Failure(Protected);
      }
      var found := Require(id);
      var e := found.value;
      ghost var before := table.items;
      ReadIdentity(model, id, lib);
      DeleteKeepsCoherent(model, id, Linked(table.items), lib);
      DeleteChunks(id);
      EvidenceDeleted(before, table.items, model, lib, id);
      DeleteRecord(e);
      model := Drop(model, id);
      r := Success(());
    }

    /** The deletes that follow those of the content items. */
    method DeleteRecord(e: EvidenceModel.Evidence)
      modifies table
      ensures table.items == old(table.items) - RecordKeys(e, lib)
    {
      table.DeleteItem(MetaKey(e.id));
      table.DeleteItem(SourceRefKey(e.sourceId, e.id, lib));
      if e.duplicateOf.Some? {
        table.DeleteItem(DupRefKey(e.duplicateOf.value, e.id, lib));
      } else {
        table.DeleteItem(LockKey(e.contentHash));
      }
    }

    /** `duplicate_deletion_preview`. */
    method DuplicateDeletionPreview(c: string) returns (r: Result<seq<Candidate>, CallError>)
      requires Valid()
      ensures Required(model, c).Failure? ==> r == Failure(Required(model, c).error)
      ensures Required(model, c).Success? ==> (r == Failure(NotCanonical) <==> !Canonical(model, c))
      ensures Required(model, c).Success? && Canonical(model, c) ==> r.Success? && Lists(r.value, model, c, Linked(table.items))
    {
      var canonical := Require(c);
      if canonical.Failure? {
        return Failure(canonical.error);
      }
      ReadIdentity(model, c, lib);
      if canonical.value.duplicateOf.Some? {
        return Failure(NotCanonical);
      }
      var rows := table.QueryRows(DupRef(c), "");
      DuplicatesListed(table.items, model, lib, c);
      var candidates := Assess(c, RefIds(rows));
      r := Success(candidates);
    }

    method Assess(c: string, ids: seq<string>) returns (candidates: seq<Candidate>)
      requires Valid() && IsListOf(ids, DuplicatesOf(model, c))
      ensures Lists(candidates, model, c, Linked(table.items)) && Ids(candidates) == ids
    {
      candidates := [];
      var i := 0;
      while i < |ids|
        invariant i == |candidates| <= |ids|
        invariant Ids(candidates) == ids[..i]
        invariant forall j :: 0 <= j < i ==> ImpactOf(model, candidates[j].id, Linked(table.items)) == Some(candidates[j].impact)
      {
        DuplicateIsReadable(model, c, ids[i], lib);
        var impact := DeletionImpact(ids[i]);
        IdsExtended(candidates, Candidate(ids[i], impact.value));
        candidates := candidates + [Candidate(ids[i], impact.value)];
        i := i + 1;
      }
    }

    /** `delete_unprotected_duplicates`: the duplicates are split into those deleted and those
        skipped as protected, and none of the inner deletions fails. */
    method DeleteUnprotectedDuplicates(c: string, deleteCanonical: bool) returns (r: Result<CleanupResult, CallError>)
      requires Valid()
      modifies this`model, table
      ensures Valid() && SameElsewhere(old(table.items), table.items)
      ensures r.Success? <==> Required(old(model), c).Success? && Canonical(old(model), c)
      ensures r.Failure? ==> model == old(model)
      ensures r.Success? ==>
        && model == Cleanup(old(model), c, deleteCanonical, Linked(old(table.items)))
        && IsListOf(r.value.deleted, DeletableDuplicates(old(model), c, Linked(old(table.items))))
        && IsListOf(Ids(r.value.skipped),
                    DuplicatesOf(old(model), c) - DeletableDuplicates(old(model), c, Linked(old(table.items))))
        && (r.value.canonicalDeleted <==> c !in model.entries)
    {
      var preview := DuplicateDeletionPreview(c);
      if preview.Failure? {
        return Failure(preview.error);
      }
      ghost var m0, linked := model, Linked(table.items);
      var deleted, skipped := DeleteCandidates(c, preview.value);
      DuplicatesAreIndependent(m0, c, DeletableDuplicates(m0, c, linked), linked, lib);
      var canonicalDeleted := false;
      LinkedElsewhere(old(table.items), table.items);
      if deleteCanonical {
        var impact := DeletionImpact(c);
        if impact.value.CanDelete() {
          var gone := DeleteEvidence(c);
          canonicalDeleted := true;
        }
      }
      r := Success(CleanupResult(deleted, skipped, canonicalDeleted));
    }

    /** The loop over the candidates. */
    method DeleteCandidates(c: string, candidates: seq<Candidate>) returns (deleted: seq<string>, skipped: seq<Candidate>)
      requires Valid() && Lists(candidates, model, c, Linked(table.items))
      modifies this`model, table
      ensures Valid() && SameElsewhere(old(table.items), table.items)
      ensures model == Without(old(model), DeletableDuplicates(old(model), c, Linked(old(table.items))))
      ensures IsListOf(deleted, DeletableDuplicates(old(model), c, Linked(old(table.items))))
      ensures IsListOf(Ids(skipped), DuplicatesOf(old(model), c) - DeletableDuplicates(old(model), c, Linked(old(table.items))))
    {
      ghost var m0, linked := model, Linked(table.items);
      deleted, skipped := [], [];
      ProgressStarts(m0, c, linked, candidates);
      var i := 0;
      while i < |candidates|
        invariant Valid() && SameElsewhere(old(table.items), table.items)
        invariant Progress(m0, model, c, linked, candidates, i, deleted, skipped)
      {
        ProgressGoesOn(m0, model, c, linked, candidates, i, deleted, skipped, lib);
        LinkedElsewhere(old(table.items), table.items);
        if candidates[i].impact.CanDelete() {
          var gone := DeleteEvidence(candidates[i].id);
          deleted := deleted + [candidates[i].id];
        } else {
          skipped := skipped + [candidates[i]];
        }
        i := i + 1;
      }
      ProgressEnds(m0, model, c, linked, candidates, deleted, skipped);
    }
  }
}
