/** What the evidence repository means, without the items: records by identifier, the text
    kept for each, and for every content digest the record that holds it. */
module EvidenceModel {
  import opened Wrappers
  import opened PrefixCode
  import opened Json
  import Chunking
  import Numerals

  type Text = seq<CodePoint>

  function Codes(s: string): Text { seq(|s|, i requires 0 <= i < |s| => s[i] as int) }

  /** Marks content kept in chunk items. */
  const CHUNKS: Text := Codes("chunks://content")

  /** Marks content that was removed while the record was kept. */
  const REMOVED: Text := Codes("removed://retained-audit-metadata")

  /** What a caller submits; the fields the repository only carries along are `details`. */
  datatype Draft = Draft(
    sourceId: string,
    content: Option<Text>,
    structured: Option<Json>,
    reference: Option<Text>,
    legalHold: bool,
    details: string)
  {
    predicate Valid() { content.Some? || structured.Some? || reference.Some? }
  }

  datatype Evidence = Evidence(
    id: string,
    sourceId: string,
    content: Option<Text>,
    structured: Option<Json>,
    reference: Option<Text>,
    contentHash: string,
    duplicateOf: Option<string>,
    legalHold: bool,
    archived: bool,
    details: string)
  {
    /** The model validator, run whenever a record is built or read. */
    predicate Valid() {
      && (content.Some? || structured.Some? || reference.Some? || duplicateOf.Some?)
      && duplicateOf != Some(id)
    }
  }

  /** The functions the repository is built on. `sk` names the content items of a record,
      `ref` the items that refer to it. */
  datatype Library = Library(
    normalize: Text -> Text,
    split: Text -> Result<seq<seq<Byte>>, Chunking.ContentError>,
    join: seq<seq<Byte>> -> Result<Text, Chunking.ContentError>,
    sha256: Text -> Option<string>,
    dumps: Json -> Text,
    sk: nat -> string,
    index: string -> nat,
    ref: string -> string,
    unref: string -> string)
  {
    ghost predicate Lawful() {
      && (forall t :: normalize(normalize(t)) == normalize(t))
      && (forall t :: split(t).Success? ==> join(split(t).value) == Success(t) && |split(t).value| <= 5)
      && join([]) == Success([])
      && (forall t :: split(t).Success? ==> sha256(t).Some?)
      && (forall i: nat :: index(sk(i)) == i && CONTENT_PREFIX <= sk(i) && sk(i) != "META")
      && (forall id :: unref(ref(id)) == id)
      && (forall i: nat, j: nat :: i < j < 5 ==> Numerals.Less(sk(i), sk(j)))
    }
  }

  const CONTENT_PREFIX := "CONTENT#"

  // ---- Records ------------------------------------------------------------------------

  /** `_meta`: what of a record goes into its META item. */
  function Stored(e: Evidence): Evidence {
    e.(content := None,
       reference := if e.reference.Some? && e.reference.value != [] then e.reference
                    else if e.content.Some? then Some(CHUNKS) else None)
  }

  /** A META item and the text in the content items beside it. */
  datatype Entry = Entry(meta: Evidence, text: Option<Text>)

  datatype Model = Model(entries: map<string, Entry>, locks: map<string, string>)

  datatype Found = Missing | Broken | Present(value: Evidence)

  /** What `get` makes of an entry. */
  function ReadEntry(e: Entry): Found {
    if !e.meta.Valid() then Broken
    else if e.meta.reference == Some(CHUNKS) then
      Present(e.meta.(content := Some(if e.text.Some? then e.text.value else []), reference := None))
    else Present(e.meta)
  }

  function Read(m: Model, id: string): Found { if id in m.entries then ReadEntry(m.entries[id]) else Missing }

  predicate Canonical(m: Model, id: string) { id in m.entries && m.entries[id].meta.duplicateOf.None? }

  predicate HasDuplicates(m: Model, id: string) {
    exists x :: x in m.entries && m.entries[x].meta.duplicateOf == Some(id)
  }

  predicate GoodEntry(m: Model, id: string, lib: Library)
    requires id in m.entries
  {
    var meta := m.entries[id].meta;
    && meta.id == id && Stored(meta) == meta
    && (m.entries[id].text.Some? ==> lib.split(m.entries[id].text.value).Success?)
    && (meta.duplicateOf.None? ==> meta.contentHash in m.locks && m.locks[meta.contentHash] == id)
    && (meta.duplicateOf.Some? ==>
          Canonical(m, meta.duplicateOf.value)
          && m.entries[meta.duplicateOf.value].meta.contentHash == meta.contentHash)
  }

  /** Records and locks agree: a digest is locked exactly when some record holds it itself,
      the lock names that record, and every duplicate points at such a record. */
  predicate Coherent(m: Model, lib: Library) {
    && (forall id :: id in m.entries ==> GoodEntry(m, id, lib))
    && (forall d :: d in m.locks ==> Canonical(m, m.locks[d]) && m.entries[m.locks[d]].meta.contentHash == d)
  }

  /** One record per digest holds the content; no duplicate points at a duplicate. */
  lemma OneCanonicalPerDigest(m: Model, lib: Library, a: string, b: string)
    requires Coherent(m, lib) && a in m.entries && b in m.entries
    ensures Canonical(m, a) && Canonical(m, b) && m.entries[a].meta.contentHash == m.entries[b].meta.contentHash ==> a == b
    ensures m.entries[a].meta.duplicateOf == Some(b) ==> Canonical(m, b) && a != b
    ensures m.entries[a].meta.contentHash in m.locks
  {
    assert GoodEntry(m, a, lib) && GoodEntry(m, b, lib);
    if m.entries[a].meta.duplicateOf.Some? {
      assert GoodEntry(m, m.entries[a].meta.duplicateOf.value, lib);
    }
  }

  // ---- Storing ------------------------------------------------------------------------

  /** The text that is hashed. */
  function Raw(v: Draft, lib: Library): Text {
    if v.content.Some? then lib.normalize(v.content.value)
    else if v.structured.Some? then lib.dumps(v.structured.value)
    else if v.reference.Some? then v.reference.value
    else []
  }

  /** `_digest`. */
  function Digest(v: Draft, lib: Library): Option<string> { lib.sha256(Raw(v, lib)) }

  function Normalized(v: Draft, lib: Library): Option<Text> {
    if v.content.Some? then Some(lib.normalize(v.content.value)) else None
  }

  function Original(v: Draft, id: string, digest: string, lib: Library): Evidence {
    Evidence(id, v.sourceId, Normalized(v, lib), v.structured, v.reference, digest, None, v.legalHold, false, v.details)
  }

  function Duplicate(v: Draft, id: string, digest: string, canonical: string): Evidence {
    Evidence(id, v.sourceId, None, None, None, digest, Some(canonical), v.legalHold, false, v.details)
  }

  datatype StoreError = BadContent(error: Chunking.ContentError) | SourceNotFound | NotEncodable | Unreadable | Conflict

  /** The answer of `store`: the record and whether it is a duplicate. */
  function StoreAnswer(m: Model, v: Draft, id: string, hasSource: bool, lib: Library)
    : Result<(Evidence, bool), StoreError>
  {
    var text := Normalized(v, lib);
    if text.Some? && lib.split(text.value).Failure? then Failure(BadContent(lib.split(text.value).error))
    else if !hasSource then Failure(SourceNotFound)
    else if Digest(v, lib).None? then Failure(NotEncodable)
    else
      var digest := Digest(v, lib).value;
      if digest in m.locks && Read(m, m.locks[digest]).Broken? then Failure(Unreadable)
      else if id in m.entries then Failure(Conflict)
      else if digest in m.locks then Success((Duplicate(v, id, digest, m.locks[digest]), true))
      else Success((Original(v, id, digest, lib), false))
  }

  /** The records after a store that answers `e`. */
  function Add(m: Model, e: Evidence): Model {
    Model(m.entries[e.id := Entry(Stored(e), e.content)],
          if e.duplicateOf.None? then m.locks[e.contentHash := e.id] else m.locks)
  }

  function AfterStore(m: Model, v: Draft, id: string, hasSource: bool, lib: Library): Model {
    match StoreAnswer(m, v, id, hasSource, lib)
    case Success(answer) => Add(m, answer.0)
    case Failure(_) => m
  }

  lemma AddOriginalKeeps(m: Model, e: Evidence, lib: Library)
    requires Coherent(m, lib) && e.id !in m.entries && e.duplicateOf.None? && e.contentHash !in m.locks
    requires e.content.Some? ==> lib.split(e.content.value).Success?
    ensures Coherent(Add(m, e), lib)
  {
    var m' := Add(m, e);
    forall x | x in m'.entries ensures GoodEntry(m', x, lib) {
      if x in m.entries { assert GoodEntry(m, x, lib); }
    }
  }

  lemma AddDuplicateKeeps(m: Model, e: Evidence, lib: Library)
    requires Coherent(m, lib) && e.id !in m.entries && e.content.None?
    requires e.contentHash in m.locks && e.duplicateOf == Some(m.locks[e.contentHash])
    ensures Coherent(Add(m, e), lib)
  {
    var m' := Add(m, e);
    forall x | x in m'.entries ensures GoodEntry(m', x, lib) {
      if x in m.entries { assert GoodEntry(m, x, lib); }
    }
  }

  lemma StoreKeepsCoherent(m: Model, v: Draft, id: string, hasSource: bool, lib: Library)
    requires Coherent(m, lib)
    ensures Coherent(AfterStore(m, v, id, hasSource, lib), lib)
  {
    match StoreAnswer(m, v, id, hasSource, lib) {
      case Success(answer) =>
        if answer.1 { AddDuplicateKeeps(m, answer.0, lib); } else { AddOriginalKeeps(m, answer.0, lib); }
      case Failure(_) =>
    }
  }

  /** Over a coherent table, a store is a duplicate exactly when some record holds the digest
      already, and the record it then points at is that one. */
  lemma DuplicateIffHeld(m: Model, v: Draft, id: string, lib: Library)
    requires Coherent(m, lib) && StoreAnswer(m, v, id, true, lib).Success?
    ensures var answer := StoreAnswer(m, v, id, true, lib).value;
      && (answer.1 <==> exists c :: Canonical(m, c) && m.entries[c].meta.contentHash == answer.0.contentHash)
      && (answer.1 ==> answer.0.duplicateOf.Some? && Canonical(m, answer.0.duplicateOf.value)
                       && m.entries[answer.0.duplicateOf.value].meta.contentHash == answer.0.contentHash)
      && (!answer.1 ==> answer.0.duplicateOf.None?)
  {
    var answer := StoreAnswer(m, v, id, true, lib).value;
    if c :| Canonical(m, c) && m.entries[c].meta.contentHash == answer.0.contentHash {
      assert GoodEntry(m, c, lib);
    }
  }

  /** The references under which stored content can be found again. */
  predicate ReadsContentBack(reference: Option<Text>) {
    reference.None? || reference.value == [] || reference.value == CHUNKS
  }

  /** Storing text and getting it back: `get` returns the normalised text exactly when the
      draft brought no reference of its own, and hashing that text gives the record's hash.
      Without a content, a record whose only reference is empty cannot be read at all. */
  lemma StoreThenGet(m: Model, v: Draft, id: string, lib: Library)
    requires lib.Lawful() && v.Valid() && StoreAnswer(m, v, id, true, lib).Success?
    requires !StoreAnswer(m, v, id, true, lib).value.1
    ensures var found := Read(AfterStore(m, v, id, true, lib), id);
      && (v.content.Some? ==>
            && found.Present?
            && (found.value.content == Some(lib.normalize(v.content.value)) <==> ReadsContentBack(v.reference))
            && (!ReadsContentBack(v.reference) ==> found.value.content == None && found.value.reference == v.reference)
            && Some(found.value.contentHash) == lib.sha256(lib.normalize(lib.normalize(v.content.value))))
      && (found.Broken? <==> v.content.None? && v.structured.None? && v.reference == Some([]))
  {
  }

  // ---- Rewriting a record -------------------------------------------------------------

  /** Rewriting what is not part of a record's identity. */
  function PutRecord(m: Model, e: Evidence, text: Option<Text>): Model {
    m.(entries := m.entries[e.id := Entry(Stored(e), text)])
  }

  lemma PutKeepsCoherent(m: Model, e: Evidence, text: Option<Text>, lib: Library)
    requires Coherent(m, lib) && e.id in m.entries
    requires e.contentHash == m.entries[e.id].meta.contentHash && e.duplicateOf == m.entries[e.id].meta.duplicateOf
    requires text.Some? ==> lib.split(text.value).Success?
    ensures Coherent(PutRecord(m, e, text), lib)
  {
    var m' := PutRecord(m, e, text);
    forall x | x in m'.entries ensures GoodEntry(m', x, lib) { PutKeepsEntry(m, e, text, lib, x); }
  }

  lemma PutKeepsEntry(m: Model, e: Evidence, text: Option<Text>, lib: Library, x: string)
    requires e.id in m.entries && x in m.entries && GoodEntry(m, x, lib) && GoodEntry(m, e.id, lib)
    requires e.contentHash == m.entries[e.id].meta.contentHash && e.duplicateOf == m.entries[e.id].meta.duplicateOf
    requires text.Some? ==> lib.split(text.value).Success?
    ensures GoodEntry(PutRecord(m, e, text), x, lib)
  {
  }

  lemma ReadIdentity(m: Model, id: string, lib: Library)
    requires Coherent(m, lib) && Read(m, id).Present?
    ensures var e, meta := Read(m, id).value, m.entries[id].meta;
      && e.id == id && e.contentHash == meta.contentHash && e.duplicateOf == meta.duplicateOf && Stored(e) == meta
      && (m.entries[id].text.Some? ==> lib.split(m.entries[id].text.value).Success?)
  {
    assert GoodEntry(m, id, lib);
  }

  /** Nothing but the entry of `id` differs. */
  predicate OnlyEntryChanges(m: Model, m': Model, id: string) {
    && m'.locks == m.locks && m'.entries.Keys == m.entries.Keys
    && forall x :: x in m.entries && x != id ==> m'.entries[x] == m.entries[x]
  }

  /** `set_archived`. */
  function Archive(m: Model, id: string, flag: bool): Model {
    match Read(m, id)
    case Present(e) => PutRecord(m, e.(archived := flag), m.entries[id].text)
    case _ => m
  }

  lemma ArchiveOnce(m: Model, id: string, flag: bool, lib: Library)
    requires Coherent(m, lib)
    ensures var m' := Archive(m, id, flag);
      && Coherent(m', lib) && OnlyEntryChanges(m, m', id)
      && (Read(m, id).Present? ==> Read(m', id) == Present(Read(m, id).value.(archived := flag)))
      && (!Read(m, id).Present? ==> m' == m)
  {
    if Read(m, id).Present? {
      ReadIdentity(m, id, lib);
      PutKeepsCoherent(m, Read(m, id).value.(archived := flag), m.entries[id].text, lib);
    }
  }

  function Archives(m: Model, id: string, flags: seq<bool>): Model
    decreases |flags|
  {
    if flags == [] then m else Archives(Archive(m, id, flags[0]), id, flags[1..])
  }

  /** Any number of archive and restore calls changes the archived mark and nothing else. */
  lemma {:induction false} ArchivesOnlyMark(m: Model, id: string, flags: seq<bool>, lib: Library)
    requires Coherent(m, lib) && flags != [] && Read(m, id).Present?
    ensures var m' := Archives(m, id, flags);
      && Read(m', id) == Present(Read(m, id).value.(archived := flags[|flags| - 1]))
      && OnlyEntryChanges(m, m', id)
    decreases |flags|
  {
    var next := Archive(m, id, flags[0]);
    ArchiveOnce(m, id, flags[0], lib);
    if |flags| > 1 {
      ArchivesOnlyMark(next, id, flags[1..], lib);
    } else {
      assert Archives(next, id, flags[1..]) == next;
    }
  }

  /** Text stored without a reference of its own, then archived and restored any number of
      times, is still returned normalised, and still hashes to the record's digest. */
  lemma StoreArchiveGet(m: Model, v: Draft, id: string, flags: seq<bool>, lib: Library)
    requires lib.Lawful() && Coherent(m, lib) && v.content.Some? && flags != []
    requires StoreAnswer(m, v, id, true, lib).Success? && !StoreAnswer(m, v, id, true, lib).value.1
    ensures var m' := Archives(AfterStore(m, v, id, true, lib), id, flags);
      && Read(m', id).Present?
      && (var e := Read(m', id).value;
          && (e.content == Some(lib.normalize(v.content.value)) <==> ReadsContentBack(v.reference))
          && (e.content.Some? ==>
                Digest(Draft(e.sourceId, e.content, e.structured, e.reference, e.legalHold, e.details), lib)
                == Some(e.contentHash)))
  {
    StoreKeepsCoherent(m, v, id, true, lib);
    StoreThenGet(m, v, id, lib);
    ArchivesOnlyMark(AfterStore(m, v, id, true, lib), id, flags, lib);
  }

  /** `remove_raw_content`. */
  function RemoveRaw(m: Model, id: string): Model {
    match Read(m, id)
    case Present(e) =>
      if e.legalHold then m
      else PutRecord(m, e.(content := None, structured := None, reference := Some(REMOVED)), None)
    case _ => m
  }

  /** Without a legal hold nothing of the content remains; who the record is, its hash, its
      lock and its duplicates are not touched. */
  lemma RemoveRawKeepsIdentity(m: Model, id: string, lib: Library)
    requires Coherent(m, lib)
    ensures var m' := RemoveRaw(m, id);
      && Coherent(m', lib) && OnlyEntryChanges(m, m', id)
      && (Read(m, id).Present? && !Read(m, id).value.legalHold ==>
            && Read(m', id) == Present(Read(m, id).value.(content := None, structured := None, reference := Some(REMOVED)))
            && m'.entries[id].text.None?)
  {
    assert |CHUNKS| != |REMOVED|;
    if Read(m, id).Present? && !Read(m, id).value.legalHold {
      ReadIdentity(m, id, lib);
      PutKeepsCoherent(m, Read(m, id).value.(content := None, structured := None, reference := Some(REMOVED)), None, lib);
    }
  }

  // ---- Deleting -----------------------------------------------------------------------

  /** Python's truth value. */
  predicate Truthy(j: Json) {
    match j
    case Null => false
    case Bool(b) => b
    case Int(i) => i != 0
    case Float(r) => r != 0.0
    case Str(s) => s != ""
    case Arr(xs) => xs != []
    case Obj(m) => m != map[]
  }

  /** `any((content, structured_content, content_reference))`. */
  predicate HasRaw(e: Evidence) {
    || (e.content.Some? && e.content.value != [])
    || (e.structured.Some? && Truthy(e.structured.value))
    || (e.reference.Some? && e.reference.value != [])
  }

  /** What stands in the way of deleting a record, and whether there is raw content to remove. */
  datatype Impact = Impact(signals: bool, duplicates: bool, legalHold: bool, rawPresent: bool) {
    predicate CanRemoveRaw() { !legalHold }
    predicate CanDelete() { !signals && !duplicates && !legalHold }
  }

  /** `deletion_impact`; `linked` are the records that signals were drawn from. */
  function ImpactOf(m: Model, id: string, linked: set<string>): Option<Impact> {
    match Read(m, id)
    case Present(e) => Some(Impact(id in linked, HasDuplicates(m, id), e.legalHold, HasRaw(e)))
    case _ => None
  }

  /** Removing the raw content never clears the flag that there is some: the reference put in its
      place counts as content. */
  lemma RemovedContentCountsAsPresent(m: Model, id: string, linked: set<string>, lib: Library)
    requires Coherent(m, lib) && Read(m, id).Present? && !Read(m, id).value.legalHold
    ensures var impact := ImpactOf(RemoveRaw(m, id), id, linked);
      impact.Some? && impact.value.rawPresent
  {
    RemoveRawKeepsIdentity(m, id, lib);
    assert |REMOVED| == |"removed://retained-audit-metadata"|;
  }

  predicate Deletable(m: Model, id: string, linked: set<string>) {
    ImpactOf(m, id, linked).Some? && ImpactOf(m, id, linked).value.CanDelete()
  }

  /** `delete` of a deletable record: the lock goes with the record that held it. */
  function Drop(m: Model, id: string): Model
    requires id in m.entries
  {
    var meta := m.entries[id].meta;
    Model(m.entries - {id}, if meta.duplicateOf.None? then m.locks - {meta.contentHash} else m.locks)
  }

  lemma DeleteKeepsCoherent(m: Model, id: string, linked: set<string>, lib: Library)
    requires Coherent(m, lib) && Deletable(m, id, linked)
    ensures Coherent(Drop(m, id), lib)
  {
    var m' := Drop(m, id);
    assert GoodEntry(m, id, lib);
    forall x | x in m'.entries ensures GoodEntry(m', x, lib) {
      assert GoodEntry(m, x, lib);
      if m.entries[x].meta.duplicateOf.None? && m.entries[id].meta.duplicateOf.None? {
        OneCanonicalPerDigest(m, lib, x, id);
      }
    }
    forall d | d in m'.locks ensures Canonical(m', m'.locks[d]) && m'.entries[m'.locks[d]].meta.contentHash == d {
      assert Canonical(m, m.locks[d]);
    }
  }

  /** Once a record is gone its content can be stored afresh, as an original. */
  lemma DeleteReleasesDigest(m: Model, id: string, linked: set<string>, v: Draft, other: string, lib: Library)
    requires lib.Lawful() && Coherent(m, lib) && Canonical(m, id) && Deletable(m, id, linked)
    requires Digest(v, lib) == Some(m.entries[id].meta.contentHash)
    requires v.content.Some? ==> lib.split(lib.normalize(v.content.value)).Success?
    requires other !in m.entries
    ensures StoreAnswer(Drop(m, id), v, other, true, lib)
         == Success((Original(v, other, m.entries[id].meta.contentHash, lib), false))
  {
  }

  // ---- Batch clean-up -----------------------------------------------------------------

  function DuplicatesOf(m: Model, c: string): set<string> {
    set x | x in m.entries && m.entries[x].meta.duplicateOf == Some(c)
  }

  lemma HasDuplicatesIff(m: Model, c: string)
    ensures HasDuplicates(m, c) <==> DuplicatesOf(m, c) != {}
  {
    if x :| x in m.entries && m.entries[x].meta.duplicateOf == Some(c) {
      assert x in DuplicatesOf(m, c);
    }
  }

  function DeletableDuplicates(m: Model, c: string, linked: set<string>): set<string> {
    set x | x in DuplicatesOf(m, c) && Deletable(m, x, linked)
  }

  function Without(m: Model, gone: set<string>): Model { m.(entries := m.entries - gone) }

  /** `delete_unprotected_duplicates`, as one step. */
  function Cleanup(m: Model, c: string, deleteCanonical: bool, linked: set<string>): Model {
    if !Read(m, c).Present? || !Canonical(m, c) then m
    else
      var m1 := Without(m, DeletableDuplicates(m, c, linked));
      if deleteCanonical && Deletable(m1, c, linked) then Drop(m1, c) else m1
  }

  /** Duplicates of a record do not protect one another: whichever of them are gone already,
      the records stay coherent and the impact of deleting any of the others is as before. */
  lemma DuplicatesAreIndependent(m: Model, c: string, gone: set<string>, linked: set<string>, lib: Library)
    requires Coherent(m, lib) && gone <= DuplicatesOf(m, c)
    ensures Coherent(Without(m, gone), lib) && DuplicatesOf(Without(m, gone), c) == DuplicatesOf(m, c) - gone
    ensures forall y :: y in DuplicatesOf(m, c) - gone ==>
      ImpactOf(Without(m, gone), y, linked) == ImpactOf(m, y, linked) != None && !HasDuplicates(m, y)
  {
    var m1 := Without(m, gone);
    forall x | x in m1.entries ensures GoodEntry(m1, x, lib) { assert GoodEntry(m, x, lib); }
    forall d | d in m1.locks ensures Canonical(m1, m1.locks[d]) && m1.entries[m1.locks[d]].meta.contentHash == d {
      assert Canonical(m, m.locks[d]);
    }
    forall y | y in DuplicatesOf(m, c) - gone
      ensures !HasDuplicates(m, y) && !HasDuplicates(m1, y) && Read(m, y).Present?
    {
      OneCanonicalPerDigest(m, lib, y, c);
      if z :| z in m.entries && m.entries[z].meta.duplicateOf == Some(y) {
        OneCanonicalPerDigest(m, lib, z, y);
      }
    }
  }

  /** One round of the loop over the duplicates `seen` so far. */
  lemma CleanupRound(m: Model, c: string, seen: set<string>, x: string, linked: set<string>, lib: Library)
    requires Coherent(m, lib) && seen <= DuplicatesOf(m, c) && x in DuplicatesOf(m, c) - seen
    ensures var removable := DeletableDuplicates(m, c, linked);
      var m1 := Without(m, seen * removable);
      && (Deletable(m1, x, linked) <==> x in removable)
      && (x in removable ==>
            && Drop(m1, x) == Without(m, (seen + {x}) * removable)
            && (seen + {x}) * removable == seen * removable + {x} && (seen + {x}) - removable == seen - removable)
      && (x !in removable ==>
            (seen + {x}) * removable == seen * removable && (seen + {x}) - removable == seen - removable + {x})
  {
    var removable := DeletableDuplicates(m, c, linked);
    DuplicatesAreIndependent(m, c, seen * removable, linked, lib);
    OneMoreSeen(seen, removable, x);
    if x in removable { DropOneMore(m, seen * removable, x); }
  }

  lemma OneMoreSeen(seen: set<string>, removable: set<string>, x: string)
    requires x !in seen
    ensures x in removable ==>
      (seen + {x}) * removable == seen * removable + {x} && (seen + {x}) - removable == seen - removable
    ensures x !in removable ==>
      (seen + {x}) * removable == seen * removable && (seen + {x}) - removable == seen - removable + {x}
  {
  }

  /** Dropping a duplicate takes its entry and no lock. */
  lemma DropOneMore(m: Model, gone: set<string>, x: string)
    requires x in m.entries && x !in gone && m.entries[x].meta.duplicateOf.Some?
    ensures Drop(Without(m, gone), x) == Without(m, gone + {x})
  {
    assert m.entries - gone - {x} == m.entries - (gone + {x});
  }

  lemma CleanupKeepsCoherent(m: Model, c: string, deleteCanonical: bool, linked: set<string>, lib: Library)
    requires Coherent(m, lib)
    ensures Coherent(Cleanup(m, c, deleteCanonical, linked), lib)
  {
    var m1 := Without(m, DeletableDuplicates(m, c, linked));
    DuplicatesAreIndependent(m, c, DeletableDuplicates(m, c, linked), linked, lib);
    if Deletable(m1, c, linked) {
      DeleteKeepsCoherent(m1, c, linked, lib);
    }
  }

  /** The canonical record goes exactly when nothing but deletable duplicates protects it. */
  lemma CleanupDeletesCanonical(m: Model, c: string, deleteCanonical: bool, linked: set<string>, lib: Library)
    requires Coherent(m, lib) && Read(m, c).Present? && Canonical(m, c)
    ensures var m' := Cleanup(m, c, deleteCanonical, linked);
      && (c !in m'.entries <==>
            && deleteCanonical && c !in linked && !m.entries[c].meta.legalHold
            && DeletableDuplicates(m, c, linked) == DuplicatesOf(m, c))
      && DuplicatesOf(m', c) == DuplicatesOf(m, c) - DeletableDuplicates(m, c, linked)
  {
    var m1 := Without(m, DeletableDuplicates(m, c, linked));
    DuplicatesAreIndependent(m, c, DeletableDuplicates(m, c, linked), linked, lib);
    HasDuplicatesIff(m1, c);
  }

  // ---- Any sequence of calls ----------------------------------------------------------

  datatype Call =
    | CallStore(draft: Draft, id: string, hasSource: bool)
    | CallArchive(id: string, flag: bool)
    | CallRemoveRaw(id: string)
    | CallDelete(id: string, linked: set<string>)
    | CallCleanup(id: string, deleteCanonical: bool, linked: set<string>)

  function After(m: Model, call: Call, lib: Library): Model {
    match call
    case CallStore(v, id, hasSource) => AfterStore(m, v, id, hasSource, lib)
    case CallArchive(id, flag) => Archive(m, id, flag)
    case CallRemoveRaw(id) => RemoveRaw(m, id)
    case CallDelete(id, linked) => if Deletable(m, id, linked) then Drop(m, id) else m
    case CallCleanup(id, deleteCanonical, linked) => Cleanup(m, id, deleteCanonical, linked)
  }

  function Run(m: Model, calls: seq<Call>, lib: Library): Model
    decreases |calls|
  {
    if calls == [] then m else Run(After(m, calls[0], lib), calls[1..], lib)
  }

  /** Under any mix of calls: a digest is locked exactly when a canonical record holds it, it
      is then locked by that record and no other, and no duplicate dangles. */
  lemma {:induction false} AnyMixOfCalls(m: Model, calls: seq<Call>, lib: Library)
    requires Coherent(m, lib)
    ensures Coherent(Run(m, calls, lib), lib)
    decreases |calls|
  {
    if calls != [] {
      match calls[0] {
        case CallStore(v, id, hasSource) => StoreKeepsCoherent(m, v, id, hasSource, lib);
        case CallArchive(id, flag) => ArchiveOnce(m, id, flag, lib);
        case CallRemoveRaw(id) => RemoveRawKeepsIdentity(m, id, lib);
        case CallDelete(id, linked) => if Deletable(m, id, linked) { DeleteKeepsCoherent(m, id, linked, lib); }
        case CallCleanup(id, deleteCanonical, linked) => CleanupKeepsCoherent(m, id, deleteCanonical, linked, lib);
      }
      AnyMixOfCalls(After(m, calls[0], lib), calls[1..], lib);
    }
  }
}
