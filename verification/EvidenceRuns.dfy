/** What holds of the evidence records over any run of calls: which of them cannot be read, what
    that does to later stores, and where a stored text can be found. */
module EvidenceRuns {
  import opened Wrappers
  import opened Json
  import opened EvidenceModel

  const NOTHING: Model := Model(map[], map[])

  predicate GoodCall(call: Call) { call.CallStore? ==> call.draft.Valid() }

  predicate GoodCalls(calls: seq<Call>) { forall i :: 0 <= i < |calls| ==> GoodCall(calls[i]) }

  lemma NothingIsCoherent(lib: Library)
    ensures Coherent(NOTHING, lib)
  {
  }

  lemma CallKeepsCoherent(m: Model, call: Call, lib: Library)
    requires Coherent(m, lib)
    ensures Coherent(After(m, call, lib), lib)
  {
    assert Run(m, [call], lib) == Run(After(m, call, lib), [], lib) by { assert [call][1..] == []; }
    AnyMixOfCalls(m, [call], lib);
  }

  // ---- What a store keeps of a draft ----------------------------------------------------------

  /** The record answered for and the one written carry the draft's source, hold and details, and
      are not archived; an original keeps the structured content, and a reference of its own; a
      duplicate keeps no content. */
  lemma StoreKeepsFields(m: Model, v: Draft, id: string, lib: Library)
    requires StoreAnswer(m, v, id, true, lib).Success?
    ensures var (e, dup) := StoreAnswer(m, v, id, true, lib).value;
      var entry := AfterStore(m, v, id, true, lib).entries[id];
      && e.id == entry.meta.id == id && e.sourceId == entry.meta.sourceId == v.sourceId
      && e.legalHold == entry.meta.legalHold == v.legalHold && e.details == entry.meta.details == v.details
      && !e.archived && !entry.meta.archived && Some(e.contentHash) == Some(entry.meta.contentHash) == Digest(v, lib)
      && (dup <==> e.duplicateOf.Some?) && entry.meta.duplicateOf == e.duplicateOf
      && (dup ==> e.content.None? && e.structured.None? && e.reference.None? && entry.text.None?)
      && (!dup ==> e.structured == entry.meta.structured == v.structured && entry.text == e.content && e.reference == v.reference)
      && (!dup ==> e.content == if v.content.Some? then Some(lib.normalize(v.content.value)) else None)
      && (!dup && v.reference.Some? && v.reference.value != [] ==> entry.meta.reference == v.reference)
  {
  }

  /** Reading it gives these fields back. */
  lemma StoredFieldsRead(m: Model, v: Draft, id: string, lib: Library)
    requires StoreAnswer(m, v, id, true, lib).Success? && Read(AfterStore(m, v, id, true, lib), id).Present?
    ensures var dup := StoreAnswer(m, v, id, true, lib).value.1;
      var e := Read(AfterStore(m, v, id, true, lib), id).value;
      && e.id == id && e.sourceId == v.sourceId && e.legalHold == v.legalHold && e.details == v.details && !e.archived
      && (!dup ==> e.structured == v.structured)
      && (!dup && v.reference.Some? && v.reference.value != [] && v.reference.value != CHUNKS ==> e.reference == v.reference)
      && (dup ==> e.content.None? && e.structured.None? && e.reference.None?)
  {
  }

  // ---- Records under legal hold ------------------------------------------------------------------

  /** The record is there with everything it had, perhaps archived or restored. */
  predicate Untouched(m: Model, t: Model, id: string) {
    && id in m.entries && id in t.entries && t.entries[id].text == m.entries[id].text
    && t.entries[id].meta == m.entries[id].meta.(archived := t.entries[id].meta.archived)
  }

  lemma ArchivedMeta(e: Evidence, flag: bool)
    ensures Stored(e.(archived := flag)) == Stored(e).(archived := flag)
  {
  }

  lemma ArchiveLeavesHeld(m: Model, x: string, flag: bool, lib: Library, id: string)
    requires Coherent(m, lib) && id in m.entries
    ensures Untouched(m, Archive(m, x, flag), id)
  {
    if Read(m, x).Present? {
      ReadIdentity(m, x, lib);
      ArchivedMeta(Read(m, x).value, flag);
    }
  }

  lemma RemovalLeavesHeld(m: Model, x: string, lib: Library, id: string)
    requires Coherent(m, lib) && id in m.entries && m.entries[id].meta.legalHold
    ensures Untouched(m, RemoveRaw(m, x), id)
  {
    if Read(m, x).Present? { ReadIdentity(m, x, lib); }
  }

  lemma HeldIsNotDeletable(m: Model, id: string, linked: set<string>)
    requires id in m.entries && m.entries[id].meta.legalHold
    ensures !Deletable(m, id, linked)
  {
  }

  lemma CleanupLeavesHeld(m: Model, c: string, deleteCanonical: bool, linked: set<string>, id: string)
    requires id in m.entries && m.entries[id].meta.legalHold
    ensures Untouched(m, Cleanup(m, c, deleteCanonical, linked), id)
  {
    HeldIsNotDeletable(m, id, linked);
    var m1 := Without(m, DeletableDuplicates(m, c, linked));
    HeldIsNotDeletable(m1, id, linked);
  }

  lemma CallLeavesHeld(m: Model, call: Call, lib: Library, id: string)
    requires Coherent(m, lib) && id in m.entries && m.entries[id].meta.legalHold
    ensures Untouched(m, After(m, call, lib), id)
  {
    match call
    case CallStore(v, x, hasSource) =>
    case CallArchive(x, flag) => ArchiveLeavesHeld(m, x, flag, lib, id);
    case CallRemoveRaw(x) => RemovalLeavesHeld(m, x, lib, id);
    case CallDelete(x, linked) => HeldIsNotDeletable(m, id, linked);
    case CallCleanup(c, deleteCanonical, linked) => CleanupLeavesHeld(m, c, deleteCanonical, linked, id);
  }

  /** Whatever is stored, archived, removed, deleted or cleaned up in between: a record under legal
      hold stays, and its content with it. */
  lemma {:induction false} HoldStands(m: Model, calls: seq<Call>, lib: Library, id: string)
    requires Coherent(m, lib) && id in m.entries && m.entries[id].meta.legalHold
    ensures Untouched(m, Run(m, calls, lib), id)
    decreases |calls|
  {
    if calls != [] {
      CallLeavesHeld(m, calls[0], lib, id);
      CallKeepsCoherent(m, calls[0], lib);
      HoldStands(After(m, calls[0], lib), calls[1..], lib, id);
    }
  }

  /** In particular one that was stored so. */
  lemma StoredHoldStands(m: Model, v: Draft, id: string, calls: seq<Call>, lib: Library)
    requires Coherent(m, lib) && v.legalHold && StoreAnswer(m, v, id, true, lib).Success?
    ensures Untouched(AfterStore(m, v, id, true, lib), Run(AfterStore(m, v, id, true, lib), calls, lib), id)
  {
    StoreKeepsFields(m, v, id, lib);
    StoreKeepsCoherent(m, v, id, true, lib);
    HoldStands(AfterStore(m, v, id, true, lib), calls, lib, id);
  }

  // ---- What is deleted ------------------------------------------------------------------------

  /** A record goes by `delete` exactly if it can be read and has no legal hold, no signal drawn from
      it and no duplicate. */
  lemma DeletedIff(m: Model, id: string, linked: set<string>, lib: Library)
    requires Coherent(m, lib) && id in m.entries
    ensures id !in After(m, CallDelete(id, linked), lib).entries
       <==> Read(m, id).Present? && !m.entries[id].meta.legalHold && id !in linked
            && forall x :: x in m.entries ==> m.entries[x].meta.duplicateOf != Some(id)
    ensures forall x :: x in m.entries && x != id ==> x in After(m, CallDelete(id, linked), lib).entries
  {
    if Read(m, id).Present? { ReadIdentity(m, id, lib); }
  }

  /** By a clean-up those duplicates of a readable canonical record go that have no legal hold and no
      signal drawn from them; of the others only the canonical record itself can. */
  lemma CleanedIff(m: Model, c: string, deleteCanonical: bool, linked: set<string>, x: string, lib: Library)
    requires Coherent(m, lib) && x in m.entries && x != c
    ensures x !in Cleanup(m, c, deleteCanonical, linked).entries
       <==> Read(m, c).Present? && m.entries[c].meta.duplicateOf.None?
            && m.entries[x].meta.duplicateOf == Some(c) && !m.entries[x].meta.legalHold && x !in linked
  {
    if c in m.entries && m.entries[x].meta.duplicateOf == Some(c) {
      DuplicatesAreIndependent(m, c, {}, linked, lib);
      assert Without(m, {}) == m;
      assert x in DuplicatesOf(m, c);
      assert Read(m, x).Present?;
      ReadIdentity(m, x, lib);
    }
  }

  /** What raw removal and archiving can change of a record. */
  predicate SameRecord(a: Evidence, b: Evidence) {
    b == a.(content := b.content, structured := b.structured, reference := b.reference, archived := b.archived)
  }

  predicate Stays(m: Model, t: Model, id: string) {
    id in m.entries && id in t.entries && SameRecord(m.entries[id].meta, t.entries[id].meta)
  }

  /** Signals are known to be drawn from the record whenever something is deleted. */
  predicate LinkedThroughout(calls: seq<Call>, id: string) {
    forall i :: 0 <= i < |calls| ==>
      && (calls[i].CallDelete? ==> id in calls[i].linked)
      && (calls[i].CallCleanup? ==> id in calls[i].linked)
  }

  lemma LinkedIsNotDeletable(m: Model, id: string, linked: set<string>)
    requires id in linked
    ensures !Deletable(m, id, linked)
  {
  }

  lemma RemovalLeavesLinked(m: Model, x: string, lib: Library, id: string)
    requires Coherent(m, lib) && id in m.entries
    ensures Stays(m, RemoveRaw(m, x), id)
  {
    if Read(m, x).Present? { ReadIdentity(m, x, lib); }
  }

  lemma CleanupLeavesLinked(m: Model, c: string, deleteCanonical: bool, linked: set<string>, id: string)
    requires id in m.entries && id in linked
    ensures Stays(m, Cleanup(m, c, deleteCanonical, linked), id)
  {
    LinkedIsNotDeletable(m, id, linked);
    LinkedIsNotDeletable(Without(m, DeletableDuplicates(m, c, linked)), id, linked);
  }

  lemma CallLeavesLinked(m: Model, call: Call, lib: Library, id: string)
    requires Coherent(m, lib) && id in m.entries && LinkedThroughout([call], id)
    ensures Stays(m, After(m, call, lib), id)
  {
    assert [call][0] == call;
    match call
    case CallStore(v, x, hasSource) =>
    case CallArchive(x, flag) => ArchiveLeavesHeld(m, x, flag, lib, id);
    case CallRemoveRaw(x) => RemovalLeavesLinked(m, x, lib, id);
    case CallDelete(x, linked) => LinkedIsNotDeletable(m, id, linked);
    case CallCleanup(c, deleteCanonical, linked) => CleanupLeavesLinked(m, c, deleteCanonical, linked, id);
  }

  /** A record that signals are drawn from is never deleted, by whatever calls. */
  lemma {:induction false} LinkedStands(m: Model, calls: seq<Call>, lib: Library, id: string)
    requires Coherent(m, lib) && id in m.entries && LinkedThroughout(calls, id)
    ensures Stays(m, Run(m, calls, lib), id)
    decreases |calls|
  {
    if calls != [] {
      assert LinkedThroughout([calls[0]], id);
      CallLeavesLinked(m, calls[0], lib, id);
      CallKeepsCoherent(m, calls[0], lib);
      LinkedStands(After(m, calls[0], lib), calls[1..], lib, id);
    }
  }

  /** A record just stored: what its deletion impact says, and so whether it can be deleted. */
  lemma ImpactAfterStore(m: Model, v: Draft, id: string, linked: set<string>, lib: Library)
    requires Coherent(m, lib) && v.Valid() && StoreAnswer(m, v, id, true, lib).Success?
    requires Read(AfterStore(m, v, id, true, lib), id).Present?
    ensures var impact := ImpactOf(AfterStore(m, v, id, true, lib), id, linked);
      && impact.Some?
      && (impact.value.signals <==> id in linked) && !impact.value.duplicates && (impact.value.legalHold <==> v.legalHold)
      && (impact.value.CanDelete() <==> id !in linked && !v.legalHold)
      && (impact.value.CanRemoveRaw() <==> !v.legalHold)
  {
    NoDuplicatesYet(m, id, lib);
  }

  /** What Python takes for false. */
  predicate Blank(j: Json) {
    j in {Null, Bool(false), Int(0), Float(0.0), Str(""), Arr([]), Obj(map[])}
  }

  lemma BlankIsFalse(v: Draft)
    ensures v.structured.Some? ==> (Truthy(v.structured.value) <==> !Blank(v.structured.value))
  {
  }

  /** And whether there is raw content: not in a duplicate, else if the draft had some text, structured
      content or a reference of its own. */
  lemma RawAfterStore(m: Model, v: Draft, id: string, linked: set<string>, lib: Library)
    requires v.Valid() && StoreAnswer(m, v, id, true, lib).Success? && Read(AfterStore(m, v, id, true, lib), id).Present?
    ensures ImpactOf(AfterStore(m, v, id, true, lib), id, linked).value.rawPresent
       <==> !StoreAnswer(m, v, id, true, lib).value.1
            && ((v.content.Some? && lib.normalize(v.content.value) != []) || (v.structured.Some? && !Blank(v.structured.value))
                || v.reference !in {None, Some([]), Some(CHUNKS)})
  {
    assert |CHUNKS| == |"chunks://content"|;
    BlankIsFalse(v);
    var e := StoreAnswer(m, v, id, true, lib).value.0;
    var found := Read(AfterStore(m, v, id, true, lib), id).value;
    assert found == ReadEntry(Entry(Stored(e), e.content)).value;
    if StoreAnswer(m, v, id, true, lib).value.1 {
      assert !HasRaw(found);
    } else if v.reference in {None, Some([]), Some(CHUNKS)} {
      assert found.reference in {None, Some([])};
      assert found.structured == v.structured;
      assert v.content.Some? ==> found.content == Some(lib.normalize(v.content.value));
      assert v.content.None? ==> found.content in {None, Some([])};
    } else {
      assert found.reference == v.reference && HasRaw(found);
    }
  }

  lemma NoDuplicatesYet(m: Model, id: string, lib: Library)
    requires Coherent(m, lib) && id !in m.entries
    ensures !HasDuplicates(m, id)
  {
    forall x | x in m.entries ensures m.entries[x].meta.duplicateOf != Some(id) { assert GoodEntry(m, x, lib); }
  }

  // ---- Records that cannot be read -----------------------------------------------------------

  /** A draft whose only content is an empty reference. */
  predicate EmptyOnly(v: Draft) { v.content.None? && v.structured.None? && v.reference == Some([]) }

  /** The call stores such a draft, as an original, under `id`. */
  predicate StoresEmpty(m: Model, call: Call, lib: Library, id: string) {
    && call.CallStore? && call.id == id && EmptyOnly(call.draft)
    && StoreAnswer(m, call.draft, id, call.hasSource, lib).Success?
    && !StoreAnswer(m, call.draft, id, call.hasSource, lib).value.1
  }

  lemma StoreBreaksIff(m: Model, v: Draft, x: string, hasSource: bool, lib: Library, id: string)
    requires Coherent(m, lib) && v.Valid()
    ensures Read(AfterStore(m, v, x, hasSource, lib), id).Broken?
       <==> Read(m, id).Broken? || StoresEmpty(m, CallStore(v, x, hasSource), lib, id)
  {
  }

  lemma PutReads(m: Model, call: Call, lib: Library, id: string)
    requires Coherent(m, lib) && (call.CallArchive? || call.CallRemoveRaw?)
    ensures Read(After(m, call, lib), id).Broken? <==> Read(m, id).Broken?
  {
    if call.CallArchive? { ArchiveOnce(m, call.id, call.flag, lib); } else { RemoveRawKeepsIdentity(m, call.id, lib); }
  }

  lemma DropReads(m: Model, id: string, gone: string)
    requires Read(m, gone).Present?
    ensures Read(Drop(m, gone), id).Broken? <==> Read(m, id).Broken?
  {
  }

  lemma CleanupReads(m: Model, c: string, deleteCanonical: bool, linked: set<string>, id: string)
    ensures Read(Cleanup(m, c, deleteCanonical, linked), id).Broken? <==> Read(m, id).Broken?
  {
    var m1 := Without(m, DeletableDuplicates(m, c, linked));
    assert Read(m1, id).Broken? <==> Read(m, id).Broken?;
    if Deletable(m1, c, linked) { DropReads(m1, id, c); }
  }

  /** No call makes a broken record readable or removes it, and none breaks one but a store. */
  lemma CallBreaksIff(m: Model, call: Call, lib: Library, id: string)
    requires Coherent(m, lib) && GoodCall(call)
    ensures Read(After(m, call, lib), id).Broken? <==> Read(m, id).Broken? || StoresEmpty(m, call, lib, id)
  {
    match call
    case CallStore(v, x, hasSource) => StoreBreaksIff(m, v, x, hasSource, lib, id);
    case CallArchive(_, _) => PutReads(m, call, lib, id);
    case CallRemoveRaw(_) => PutReads(m, call, lib, id);
    case CallDelete(x, linked) => if Deletable(m, x, linked) { DropReads(m, id, x); }
    case CallCleanup(c, deleteCanonical, linked) => CleanupReads(m, c, deleteCanonical, linked, id);
  }

  /** Some call of the run does. */
  predicate StoredEmpty(m: Model, calls: seq<Call>, lib: Library, id: string)
    decreases |calls|
  {
    calls != [] && (StoresEmpty(m, calls[0], lib, id) || StoredEmpty(After(m, calls[0], lib), calls[1..], lib, id))
  }

  /** Over any run exactly the records stored with an empty reference only cannot be read. */
  lemma {:induction false} BrokenIff(m: Model, calls: seq<Call>, lib: Library, id: string)
    requires Coherent(m, lib) && GoodCalls(calls)
    ensures Read(Run(m, calls, lib), id).Broken? <==> Read(m, id).Broken? || StoredEmpty(m, calls, lib, id)
    decreases |calls|
  {
    if calls != [] {
      CallBreaksIff(m, calls[0], lib, id);
      CallKeepsCoherent(m, calls[0], lib);
      BrokenIff(After(m, calls[0], lib), calls[1..], lib, id);
    }
  }

  /** The digest is held by a record that cannot be read. */
  predicate Blocked(m: Model, digest: string, id: string) {
    digest in m.locks && m.locks[digest] == id && Read(m, id).Broken?
  }

  lemma CallKeepsBlocked(m: Model, call: Call, lib: Library, digest: string, id: string)
    requires Coherent(m, lib) && GoodCall(call) && Blocked(m, digest, id)
    ensures Blocked(After(m, call, lib), digest, id)
  {
    CallBreaksIff(m, call, lib, id);
    match call
    case CallStore(v, x, hasSource) =>
    case CallArchive(x, flag) => ArchiveOnce(m, x, flag, lib);
    case CallRemoveRaw(x) => RemoveRawKeepsIdentity(m, x, lib);
    case CallDelete(x, linked) => LockStays(m, x, digest, id, lib);
    case CallCleanup(c, deleteCanonical, linked) =>
      var gone := DeletableDuplicates(m, c, linked);
      DuplicatesAreIndependent(m, c, gone, linked, lib);
      LockStays(Without(m, gone), c, digest, id, lib);
  }

  /** Dropping a readable record does not touch the lock of another. */
  lemma LockStays(m: Model, x: string, digest: string, id: string, lib: Library)
    requires Coherent(m, lib) && digest in m.locks && m.locks[digest] == id
    ensures x in m.entries && x != id ==> digest in Drop(m, x).locks && Drop(m, x).locks[digest] == id
  {
    if x in m.entries { assert GoodEntry(m, x, lib); }
  }

  lemma {:induction false} RunKeepsBlocked(m: Model, calls: seq<Call>, lib: Library, digest: string, id: string)
    requires Coherent(m, lib) && GoodCalls(calls) && Blocked(m, digest, id)
    ensures Blocked(Run(m, calls, lib), digest, id)
    decreases |calls|
  {
    if calls != [] {
      CallKeepsBlocked(m, calls[0], lib, digest, id);
      CallKeepsCoherent(m, calls[0], lib);
      RunKeepsBlocked(After(m, calls[0], lib), calls[1..], lib, digest, id);
    }
  }

  /** Text that passes the size check, or no text. */
  predicate FitsStore(w: Draft, lib: Library) { w.content.Some? ==> lib.split(lib.normalize(w.content.value)).Success? }

  /** A record that cannot be read blocks its digest for good: whatever is called in between, every
      later store of the same digest fails. */
  lemma UnreadableBlocksItsDigest(m: Model, v: Draft, id: string, calls: seq<Call>, w: Draft, other: string, lib: Library)
    requires Coherent(m, lib) && GoodCalls(calls) && StoresEmpty(m, CallStore(v, id, true), lib, id)
    requires Digest(w, lib) == Digest(v, lib) && FitsStore(w, lib)
    ensures StoreAnswer(Run(AfterStore(m, v, id, true, lib), calls, lib), w, other, true, lib) == Failure(Unreadable)
  {
    var stored := AfterStore(m, v, id, true, lib);
    StoreKeepsCoherent(m, v, id, true, lib);
    StoreBreaksIff(m, v, id, true, lib, id);
    RunKeepsBlocked(stored, calls, lib, Digest(v, lib).value, id);
  }

  /** Over any run from an empty library: a store fails as unreadable exactly if nothing else is
      wrong with it and its digest is held by a record stored with an empty reference only. */
  lemma UnreadableIff(calls: seq<Call>, w: Draft, other: string, hasSource: bool, lib: Library)
    requires GoodCalls(calls)
    ensures var t := Run(NOTHING, calls, lib);
      var blocked := Digest(w, lib).Some? && Digest(w, lib).value in t.locks
                     && StoredEmpty(NOTHING, calls, lib, t.locks[Digest(w, lib).value]);
      StoreAnswer(t, w, other, hasSource, lib) == Failure(Unreadable) <==> FitsStore(w, lib) && hasSource && blocked
  {
    var t := Run(NOTHING, calls, lib);
    NothingIsCoherent(lib);
    if Digest(w, lib).Some? && Digest(w, lib).value in t.locks {
      BrokenIff(NOTHING, calls, lib, t.locks[Digest(w, lib).value]);
    }
  }

  // ---- Where a text can be found ---------------------------------------------------------------

  /** A text that is kept is an original's, and the digest is its hash. */
  predicate Hashed(m: Model, lib: Library) {
    forall id :: id in m.entries && m.entries[id].text.Some? ==>
      lib.sha256(m.entries[id].text.value) == Some(m.entries[id].meta.contentHash)
  }

  lemma CallKeepsHashed(m: Model, call: Call, lib: Library)
    requires Coherent(m, lib) && Hashed(m, lib)
    ensures Hashed(After(m, call, lib), lib)
  {
    match call
    case CallStore(v, x, hasSource) => StoreKeepsHashed(m, v, x, hasSource, lib);
    case CallArchive(x, flag) => if Read(m, x).Present? { ReadIdentity(m, x, lib); }
    case CallRemoveRaw(x) => if Read(m, x).Present? { ReadIdentity(m, x, lib); }
    case _ =>
  }

  lemma StoreKeepsHashed(m: Model, v: Draft, x: string, hasSource: bool, lib: Library)
    requires Hashed(m, lib)
    ensures Hashed(AfterStore(m, v, x, hasSource, lib), lib)
  {
  }

  lemma {:induction false} RunKeepsHashed(m: Model, calls: seq<Call>, lib: Library)
    requires Coherent(m, lib) && Hashed(m, lib)
    ensures Hashed(Run(m, calls, lib), lib)
    decreases |calls|
  {
    if calls != [] {
      CallKeepsHashed(m, calls[0], lib);
      CallKeepsCoherent(m, calls[0], lib);
      RunKeepsHashed(After(m, calls[0], lib), calls[1..], lib);
    }
  }

  /** No two texts have the same hash. */
  ghost predicate Injective(lib: Library) {
    forall a: Text, b: Text :: lib.sha256(a).Some? && lib.sha256(a) == lib.sha256(b) ==> a == b
  }

  /** The record that holds the content of a record: itself, or the one it duplicates. */
  function Holder(m: Model, id: string): string
    requires id in m.entries
  {
    if m.entries[id].meta.duplicateOf.Some? then m.entries[id].meta.duplicateOf.value else id
  }

  /** The record was stored as this text without a reference of its own, and its raw content was
      not removed; of an empty text nothing needs to be kept. */
  predicate KeepsText(e: Entry, text: Text) { e.meta.reference == Some(CHUNKS) && (e.text.Some? || text == []) }

  /** The call removes the raw content of the record. */
  predicate Removes(m: Model, call: Call, id: string) {
    call.CallRemoveRaw? && call.id == id && Read(m, id).Present? && !Read(m, id).value.legalHold
  }

  lemma ArchiveKeepsText(m: Model, x: string, flag: bool, lib: Library, id: string, text: Text)
    requires Coherent(m, lib) && id in m.entries
    ensures KeepsText(Archive(m, x, flag).entries[id], text) <==> KeepsText(m.entries[id], text)
  {
    if Read(m, x).Present? { ReadIdentity(m, x, lib); }
  }

  lemma RemovalTakesText(m: Model, x: string, lib: Library, id: string, text: Text)
    requires Coherent(m, lib) && id in m.entries
    ensures KeepsText(RemoveRaw(m, x).entries[id], text) <==> KeepsText(m.entries[id], text) && !Removes(m, CallRemoveRaw(x), id)
  {
    if Read(m, x).Present? { ReadIdentity(m, x, lib); }
    assert |REMOVED| == |"removed://retained-audit-metadata"| && |CHUNKS| == |"chunks://content"|;
  }

  /** As long as a record exists, only that takes its text away. */
  lemma CallKeepsText(m: Model, call: Call, lib: Library, id: string, text: Text)
    requires Coherent(m, lib) && id in m.entries && id in After(m, call, lib).entries
    ensures KeepsText(After(m, call, lib).entries[id], text) <==> KeepsText(m.entries[id], text) && !Removes(m, call, id)
  {
    match call
    case CallArchive(x, flag) => ArchiveKeepsText(m, x, flag, lib, id, text);
    case CallRemoveRaw(x) => RemovalTakesText(m, x, lib, id, text);
    case _ =>
  }

  /** Over any run, with a hash that tells texts apart: the text of a draft can be read at the
      holder of any record with its digest exactly if the holder keeps a text. */
  lemma TextFoundIff(calls: seq<Call>, v: Draft, id: string, lib: Library)
    requires lib.Lawful() && Injective(lib) && GoodCalls(calls) && v.content.Some?
    requires var t := Run(NOTHING, calls, lib); id in t.entries && Digest(v, lib) == Some(t.entries[id].meta.contentHash)
    ensures var t := Run(NOTHING, calls, lib);
      var holder, text := Holder(t, id), lib.normalize(v.content.value);
      && Canonical(t, holder) && t.entries[holder].meta.contentHash == t.entries[id].meta.contentHash
      && ((Read(t, holder).Present? && Read(t, holder).value.content == Some(text)) <==> KeepsText(t.entries[holder], text))
  {
    var t := Run(NOTHING, calls, lib);
    NothingIsCoherent(lib);
    AnyMixOfCalls(NOTHING, calls, lib);
    RunKeepsHashed(NOTHING, calls, lib);
    assert GoodEntry(t, id, lib);
    assert GoodEntry(t, Holder(t, id), lib);
  }

  // ---- Which drafts are duplicates of each other -----------------------------------------------

  /** The record that holds the content for an answer of `store`. */
  function HolderOf(e: Evidence): string { if e.duplicateOf.Some? then e.duplicateOf.value else e.id }

  /** The drafts stand for the same content: text counts before structured content, and that before a
      reference; text counts by its words, structured content by its JSON text. */
  predicate SameContent(v: Draft, w: Draft, lib: Library) {
    if v.content.Some? && w.content.Some? then lib.normalize(v.content.value) == lib.normalize(w.content.value)
    else if v.content.Some? then CountsAs(w, lib.normalize(v.content.value), lib)
    else if w.content.Some? then CountsAs(v, lib.normalize(w.content.value), lib)
    else if v.structured.Some? && w.structured.Some? then lib.dumps(v.structured.value) == lib.dumps(w.structured.value)
    else if v.structured.Some? then w.reference == Some(lib.dumps(v.structured.value))
    else if w.structured.Some? then v.reference == Some(lib.dumps(w.structured.value))
    else v.reference == w.reference
  }

  /** A draft without a text that hashes like one. */
  predicate CountsAs(v: Draft, text: Text, lib: Library) {
    if v.structured.Some? then lib.dumps(v.structured.value) == text else v.reference == Some(text)
  }

  lemma SameContentIff(v: Draft, w: Draft, lib: Library)
    requires Injective(lib) && v.Valid() && w.Valid() && Digest(v, lib).Some?
    ensures Digest(v, lib) == Digest(w, lib) <==> SameContent(v, w, lib)
  {
  }

  /** With a hash that tells texts apart, two drafts stored one after the other have the same holder
      exactly if they stand for the same content. */
  lemma SameHolderIff(m: Model, v: Draft, id: string, w: Draft, other: string, lib: Library)
    requires Injective(lib) && Coherent(m, lib) && v.Valid() && w.Valid()
    requires StoreAnswer(m, v, id, true, lib).Success?
    requires StoreAnswer(AfterStore(m, v, id, true, lib), w, other, true, lib).Success?
    ensures var first := StoreAnswer(m, v, id, true, lib).value.0;
      var second := StoreAnswer(AfterStore(m, v, id, true, lib), w, other, true, lib).value.0;
      HolderOf(first) == HolderOf(second) <==> SameContent(v, w, lib)
  {
    var m1 := AfterStore(m, v, id, true, lib);
    StoreKeepsCoherent(m, v, id, true, lib);
    StoreKeepsCoherent(m1, w, other, true, lib);
    SameContentIff(v, w, lib);
    HolderIsLocked(m, v, id, lib);
    HolderIsLocked(m1, w, other, lib);
    var first, second := StoreAnswer(m, v, id, true, lib).value.0, StoreAnswer(m1, w, other, true, lib).value.0;
    assert first.contentHash in m1.locks && m1.locks[first.contentHash] == HolderOf(first);
    assert Canonical(m1, HolderOf(first)) && m1.entries[HolderOf(first)].meta.contentHash == first.contentHash;
  }

  lemma HolderIsLocked(m: Model, v: Draft, id: string, lib: Library)
    requires Coherent(m, lib) && StoreAnswer(m, v, id, true, lib).Success?
    ensures var e, t := StoreAnswer(m, v, id, true, lib).value.0, AfterStore(m, v, id, true, lib);
      && Digest(v, lib) == Some(e.contentHash) && e.contentHash in t.locks && t.locks[e.contentHash] == HolderOf(e)
      && Canonical(t, HolderOf(e)) && t.entries[HolderOf(e)].meta.contentHash == e.contentHash
  {
    StoreKeepsCoherent(m, v, id, true, lib);
    var e, t := StoreAnswer(m, v, id, true, lib).value.0, AfterStore(m, v, id, true, lib);
    assert GoodEntry(t, e.id, lib);
  }
}
