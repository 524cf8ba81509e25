/** Versioned planning snapshots in DynamoDB: one META item with the version, and the
    serialised cycle cut into SECTION items, all rewritten in one conditional transaction. */
module PlanningStore {
  import opened Wrappers
  import opened PrefixCode
  import opened DynamoTable
  import Chunking
  import Numerals

  const SECTION_BYTES: nat := 60 * 1024
  const MAX_SECTIONS: nat := 90

  /** A planning cycle as far as the store looks into it. */
  datatype Snapshot = Snapshot(id: string, version: nat, body: string)

  datatype Row = Meta(version: nat, chunkCount: nat) | Section(content: seq<Byte>)

  datatype StoreError = VersionConflict | TooManySections | TransactionRejected

  /** How a snapshot is written as numbered section items and read back from them: its
      section contents, and the sort key of each section with the index found in it. */
  datatype Codec = Codec(
    sections: Snapshot -> seq<seq<Byte>>,
    load: seq<seq<Byte>> -> Option<Snapshot>,
    sortKey: nat -> string,
    index: string -> nat)
  {
    ghost predicate Lawful() {
      && (forall s :: load(sections(s)) == Some(s) && sections(s) != [])
      && (forall i: nat :: index(sortKey(i)) == i && SNAPSHOT_PREFIX <= sortKey(i) && sortKey(i) != "META")
      && (forall i: nat, j: nat :: i < 1000000 && j < 1000000 ==> (Numerals.Less(sortKey(i), sortKey(j)) <==> i < j))
    }
  }

  function MetaKey(id: string): Key { Key(Planning(id), "META") }

  const SECTION_PREFIX := "SECTION#"
  const SNAPSHOT_PREFIX := "SECTION#SNAPSHOT#"

  function SectionSk(index: nat): string { SNAPSHOT_PREFIX + Numerals.Padded(index, 6) }

  /** `sk.rsplit("#", 1)[1]`: what follows the last `#`. */
  function AfterLastHash(sk: string): string {
    if forall i :: 0 <= i < |sk| ==> sk[i] != '#' then sk
    else if sk[0] == '#' && (forall i :: 1 <= i < |sk| ==> sk[i] != '#') then sk[1..]
    else AfterLastHash(sk[1..])
  }

  function IndexOf(sk: string): nat {
    var t := AfterLastHash(sk);
    if forall i :: 0 <= i < |t| ==> Numerals.IsDigit(t[i]) then Numerals.Value(t) else 0
  }

  lemma {:induction false} AfterLastHashOf(p: string, t: string)
    requires p != "" && p[|p| - 1] == '#' && forall i :: 0 <= i < |t| ==> t[i] != '#'
    ensures AfterLastHash(p + t) == t
  {
    var s := p + t;
    assert s[|p| - 1] == '#';
    assert forall i :: |p| <= i < |s| ==> s[i] == t[i - |p|];
    if |p| == 1 {
      assert s[1..] == t;
    } else {
      assert s[1..] == p[1..] + t;
      AfterLastHashOf(p[1..], t);
    }
  }

  lemma IndexAfterHash(p: string, digits: string)
    requires p != "" && p[|p| - 1] == '#' && forall i :: 0 <= i < |digits| ==> Numerals.IsDigit(digits[i])
    ensures IndexOf(p + digits) == Numerals.Value(digits)
  {
    AfterLastHashOf(p, digits);
  }

  lemma SectionIndex(index: nat)
    ensures IndexOf(SectionSk(index)) == index
    ensures SNAPSHOT_PREFIX <= SectionSk(index)
    ensures SectionSk(index) != "META"
  {
    var digits := Numerals.Padded(index, 6);
    Numerals.ValueOfPadded(index, 6);
    IndexAfterHash(SNAPSHOT_PREFIX, digits);
    assert SectionSk(index)[0] == 'S';
  }

  /** Six digits keep string order and number order together below a million. */
  lemma SectionOrder(i: nat, j: nat)
    requires i < 1000000 && j < 1000000
    ensures Numerals.Less(SectionSk(i), SectionSk(j)) <==> i < j
  {
    assert Numerals.Power10(6) == 1000000 by {
      assert Numerals.Power10(3) == 1000;
    }
    Numerals.PaddedOrder(i, j, 6);
    Numerals.LessSamePrefix(SNAPSHOT_PREFIX, Numerals.Padded(i, 6), Numerals.Padded(j, 6));
  }

  /** `[raw[x:x+60*1024] for x in range(0, len(raw), 60*1024)]`. */
  function Sections(raw: seq<Byte>): (s: seq<seq<Byte>>)
    ensures raw != [] <==> s != []
    decreases |raw|
  {
    if raw == [] then []
    else if |raw| <= SECTION_BYTES then [raw]
    else [raw[..SECTION_BYTES]] + Sections(raw[SECTION_BYTES..])
  }

  lemma {:induction false} SectionsJoin(raw: seq<Byte>)
    ensures Chunking.Concat(Sections(raw)) == raw
    ensures forall i :: 0 <= i < |Sections(raw)| ==> 0 < |Sections(raw)[i]| <= SECTION_BYTES
    decreases |raw|
  {
    if raw != [] && |raw| <= SECTION_BYTES {
      assert Chunking.Concat([raw]) == raw + Chunking.Concat([]);
    } else if raw != [] {
      SectionsJoin(raw[SECTION_BYTES..]);
      assert Sections(raw)[1..] == Sections(raw[SECTION_BYTES..]);
    }
  }

  /** Every section but the last is full, so the number of sections tells the size. */
  lemma {:induction false} SectionCount(raw: seq<Byte>)
    ensures |Sections(raw)| * 61440 >= |raw| > (|Sections(raw)| - 1) * 61440
    ensures forall i :: 0 <= i < |Sections(raw)| - 1 ==> |Sections(raw)[i]| == 61440
    decreases |raw|
  {
    if |raw| > SECTION_BYTES { SectionCount(raw[SECTION_BYTES..]); }
  }

  /** The codec of the repository, over `model_dump_json` and `model_validate_json`. */
  function JsonCodec(encode: Snapshot -> seq<Byte>, decode: seq<Byte> -> Option<Snapshot>): Codec {
    Codec(s => Sections(encode(s)), chunks => decode(Chunking.Concat(chunks)), SectionSk, IndexOf)
  }

  /** Cutting into sections loses nothing and the section keys keep the sections in order:
      the codec is lawful when the JSON one is. */
  lemma JsonCodecIsLawful(encode: Snapshot -> seq<Byte>, decode: seq<Byte> -> Option<Snapshot>)
    requires forall s :: decode(encode(s)) == Some(s) && encode(s) != []
    ensures JsonCodec(encode, decode).Lawful()
    ensures forall s: Snapshot, i :: 0 <= i < |JsonCodec(encode, decode).sections(s)| ==>
      0 < |JsonCodec(encode, decode).sections(s)[i]| <= SECTION_BYTES
  {
    forall s: Snapshot
      ensures Chunking.Concat(Sections(encode(s))) == encode(s)
      ensures forall i :: 0 <= i < |Sections(encode(s))| ==> 0 < |Sections(encode(s))[i]| <= SECTION_BYTES
    {
      SectionsJoin(encode(s));
    }
    forall i: nat
      ensures IndexOf(SectionSk(i)) == i && SNAPSHOT_PREFIX <= SectionSk(i) && SectionSk(i) != "META"
    {
      SectionIndex(i);
    }
    forall i: nat, j: nat | i < 1000000 && j < 1000000 ensures Numerals.Less(SectionSk(i), SectionSk(j)) <==> i < j {
      SectionOrder(i, j);
    }
  }

  // ---- What a partition holds ---------------------------------------------------------

  function SectionKey(id: string, index: nat, codec: Codec): Key { Key(Planning(id), codec.sortKey(index)) }

  function Contents(rows: seq<(string, Row)>): seq<seq<Byte>> {
    seq(|rows|, i requires 0 <= i < |rows| => if rows[i].1.Section? then rows[i].1.content else [])
  }

  /** `get`: the META item decides whether the cycle exists, the sections are its content. */
  function Load(items: Items<Row>, id: string, codec: Codec): Option<Snapshot> {
    if MetaKey(id) !in items then None
    else codec.load(Contents(Query(items, Planning(id), SNAPSHOT_PREFIX)))
  }

  /** The section items of the cycle are numbered 0..n-1 without gaps or leftovers. */
  ghost predicate HoldsSections(items: Items<Row>, id: string, chunks: seq<seq<Byte>>, codec: Codec) {
    && (forall sk :: Key(Planning(id), sk) in items && SECTION_PREFIX <= sk ==>
          exists i: nat :: i < |chunks| && sk == codec.sortKey(i))
    && (forall i: nat :: i < |chunks| ==> Lookup(items, SectionKey(id, i, codec)) == Some(Section(chunks[i])))
  }

  /** The partition stores exactly the snapshot `cur`, or nothing. */
  ghost predicate Stores(items: Items<Row>, id: string, cur: Option<Snapshot>, codec: Codec) {
    match cur
    case None => MetaKey(id) !in items && HoldsSections(items, id, [], codec)
    case Some(s) =>
      var chunks := codec.sections(s);
      && Lookup(items, MetaKey(id)) == Some(Meta(s.version, |chunks|))
      && 1 <= |chunks| <= MAX_SECTIONS
      && HoldsSections(items, id, chunks, codec)
  }

  function SectionSks(n: nat, codec: Codec): seq<string> { seq(n, i requires 0 <= i < n => codec.sortKey(i)) }

  lemma SectionSkInQuery(items: Items<Row>, id: string, chunks: seq<seq<Byte>>, prefix: string, sk: string, codec: Codec)
    requires codec.Lawful()
    requires HoldsSections(items, id, chunks, codec)
    requires prefix == SECTION_PREFIX || prefix == SNAPSHOT_PREFIX
    ensures sk in SectionSks(|chunks|, codec) <==> Key(Planning(id), sk) in items && prefix <= sk
  {
    var sks := SectionSks(|chunks|, codec);
    if sk in sks {
      var i: nat :| i < |sks| && sks[i] == sk;
      assert Lookup(items, SectionKey(id, i, codec)).Some?;
    }
    if Key(Planning(id), sk) in items && prefix <= sk {
      assert SECTION_PREFIX == SNAPSHOT_PREFIX[..8];
      var i: nat :| i < |chunks| && sk == codec.sortKey(i);
      assert sks[i] == sk;
    }
  }

  lemma QuerySections(items: Items<Row>, id: string, chunks: seq<seq<Byte>>, prefix: string, codec: Codec)
    requires codec.Lawful()
    requires HoldsSections(items, id, chunks, codec) && |chunks| <= MAX_SECTIONS
    requires prefix == SECTION_PREFIX || prefix == SNAPSHOT_PREFIX
    ensures var rows := Query(items, Planning(id), prefix);
      |rows| == |chunks| && forall i :: 0 <= i < |rows| ==> rows[i] == (codec.sortKey(i), Section(chunks[i]))
  {
    var sks := SectionSks(|chunks|, codec);
    assert forall i: nat, j: nat :: i < j < |sks| ==> Numerals.Less(codec.sortKey(i), codec.sortKey(j));
    forall sk ensures sk in sks <==> Key(Planning(id), sk) in items && prefix <= sk {
      SectionSkInQuery(items, id, chunks, prefix, sk, codec);
    }
    QueryIs(items, Planning(id), prefix, sks);
    assert forall i: nat :: i < |chunks| ==> Lookup(items, SectionKey(id, i, codec)) == Some(Section(chunks[i]));
  }

  /** What `get` returns is what the partition stores: the sort keys bring the sections back
      in the order they were cut. */
  lemma LoadStored(items: Items<Row>, id: string, cur: Option<Snapshot>, codec: Codec)
    requires codec.Lawful() && Stores(items, id, cur, codec)
    ensures Load(items, id, codec) == cur
  {
    if cur.Some? {
      var chunks := codec.sections(cur.value);
      QuerySections(items, id, chunks, SNAPSHOT_PREFIX, codec);
      assert Contents(Query(items, Planning(id), SNAPSHOT_PREFIX)) == chunks;
    }
  }

  // ---- Saving -------------------------------------------------------------------------

  predicate VersionIs(row: Option<Row>, version: nat) { row.Some? && row.value.Meta? && row.value.version == version }

  /** The keys read back whose section index is beyond the new snapshot. */
  function Stale(old_: seq<string>, n: nat, codec: Codec): seq<string> {
    if old_ == [] then []
    else (if codec.index(old_[0]) >= n then [old_[0]] else []) + Stale(old_[1..], n, codec)
  }

  function DeleteSection(id: string, sk: string): Action<Row> { Delete(Key(Planning(id), sk)) }

  function PutSection(id: string, index: nat, chunk: seq<Byte>, codec: Codec): Action<Row> {
    Put(SectionKey(id, index, codec), Section(chunk), Always)
  }

  function PutMeta(id: string, row: Option<nat>, version: nat, count: nat): Action<Row> {
    Put(MetaKey(id), Meta(version, count),
        match row case None => Absent case Some(v) => (found => VersionIs(found, v)))
  }

  function Transaction(id: string, row: Option<nat>, stale: seq<string>, version: nat, chunks: seq<seq<Byte>>, codec: Codec)
    : seq<Action<Row>>
  {
    [PutMeta(id, row, version, |chunks|)]
    + seq(|stale|, i requires 0 <= i < |stale| => DeleteSection(id, stale[i]))
    + seq(|chunks|, i requires 0 <= i < |chunks| => PutSection(id, i, chunks[i], codec))
  }

  /** The transaction of `save`: `row` is the version read from META, `old_` the section
      keys read after it. */
  function SaveActions(id: string, row: Option<nat>, old_: seq<string>, version: nat, chunks: seq<seq<Byte>>, codec: Codec)
    : seq<Action<Row>>
  {
    Transaction(id, row, Stale(old_, |chunks|, codec), version, chunks, codec)
  }

  lemma {:induction false} StaleSections(low: nat, m: nat, n: nat, codec: Codec)
    requires codec.Lawful()
    requires low <= m
    ensures Stale(SectionSks(m, codec)[low..], n, codec)
         == SectionSks(m, codec)[(if n < low then low else if n > m then m else n)..]
    decreases m - low
  {
    if low < m {
      assert SectionSks(m, codec)[low..][1..] == SectionSks(m, codec)[low + 1..];
      assert SectionSks(m, codec)[low..][0] == codec.sortKey(low);
      StaleSections(low + 1, m, n, codec);
      if n <= low {
        assert [codec.sortKey(low)] + SectionSks(m, codec)[low + 1..] == SectionSks(m, codec)[low..];
      }
    }
  }

  /** Which section the `p`-th item of the transaction after META writes or deletes. */
  function SectionOf(p: nat, m: nat, n: nat): nat {
    if n < m && p < m - n then n + p else if n < m then p - (m - n) else p
  }

  lemma TransactionAt(id: string, row: Option<nat>, stale: seq<string>, version: nat, chunks: seq<seq<Byte>>, p: nat, codec: Codec)
    requires p < |stale| + |chunks|
    ensures var actions := Transaction(id, row, stale, version, chunks, codec);
      && |actions| == 1 + |stale| + |chunks|
      && actions[1 + p] == if p < |stale| then DeleteSection(id, stale[p])
                           else PutSection(id, p - |stale|, chunks[p - |stale|], codec)
  {
  }

  lemma StaleAt(m: nat, n: nat, codec: Codec)
    requires codec.Lawful()
    ensures var stale := Stale(SectionSks(m, codec), n, codec);
      && |stale| == (if n < m then m - n else 0)
      && forall p :: 0 <= p < |stale| ==> stale[p] == codec.sortKey(n + p)
  {
    StaleSections(0, m, n, codec);
    assert SectionSks(m, codec)[0..] == SectionSks(m, codec);
  }

  lemma ActionAt(id: string, row: Option<nat>, m: nat, version: nat, chunks: seq<seq<Byte>>, p: nat, codec: Codec)
    requires codec.Lawful()
    requires p < if m < |chunks| then |chunks| else m
    ensures var actions := SaveActions(id, row, SectionSks(m, codec), version, chunks, codec);
      var i := SectionOf(p, m, |chunks|);
      && |actions| == 1 + (if m < |chunks| then |chunks| else m)
      && actions[1 + p] == if i < |chunks| then PutSection(id, i, chunks[i], codec) else DeleteSection(id, codec.sortKey(i))
  {
    StaleAt(m, |chunks|, codec);
    TransactionAt(id, row, Stale(SectionSks(m, codec), |chunks|, codec), version, chunks, p, codec);
  }

  lemma KeyAt(id: string, row: Option<nat>, m: nat, version: nat, chunks: seq<seq<Byte>>, j: nat, codec: Codec)
    requires codec.Lawful()
    requires j < 1 + if m < |chunks| then |chunks| else m
    ensures var actions := SaveActions(id, row, SectionSks(m, codec), version, chunks, codec);
      && |actions| == 1 + (if m < |chunks| then |chunks| else m)
      && actions[j].key == if j == 0 then MetaKey(id) else SectionKey(id, SectionOf(j - 1, m, |chunks|), codec)
  {
    if j > 0 {
      ActionAt(id, row, m, version, chunks, j - 1, codec);
    } else if m > 0 || chunks != [] {
      ActionAt(id, row, m, version, chunks, 0, codec);
    } else {
      StaleAt(m, |chunks|, codec);
    }
  }

  lemma KeysDiffer(id: string, row: Option<nat>, m: nat, version: nat, chunks: seq<seq<Byte>>, i: nat, j: nat, codec: Codec)
    requires codec.Lawful()
    requires i < j < 1 + if m < |chunks| then |chunks| else m
    ensures var actions := SaveActions(id, row, SectionSks(m, codec), version, chunks, codec);
      |actions| == 1 + (if m < |chunks| then |chunks| else m) && actions[i].key != actions[j].key
  {
    KeyAt(id, row, m, version, chunks, i, codec);
    KeyAt(id, row, m, version, chunks, j, codec);
    var q := SectionOf(j - 1, m, |chunks|);
    assert codec.index(codec.sortKey(q)) == q;
  }

  /** One META item, the new sections, and a delete for every section the new snapshot no
      longer has: never more than 91 items, and no item twice. */
  lemma SaveTransactionShape(id: string, row: Option<nat>, m: nat, version: nat, chunks: seq<seq<Byte>>, codec: Codec)
    requires codec.Lawful()
    requires m <= MAX_SECTIONS && 1 <= |chunks| <= MAX_SECTIONS
    ensures var actions := SaveActions(id, row, SectionSks(m, codec), version, chunks, codec);
      && |actions| == 1 + (if m < |chunks| then |chunks| else m) <= 91
      && DistinctTargets(actions)
  {
    var actions := SaveActions(id, row, SectionSks(m, codec), version, chunks, codec);
    KeyAt(id, row, m, version, chunks, 0, codec);
    forall i, j | 0 <= i < j < |actions| ensures actions[i].key != actions[j].key {
      KeysDiffer(id, row, m, version, chunks, i, j, codec);
    }
  }

  function Count(cur: Option<Snapshot>, codec: Codec): nat {
    if cur.Some? then |codec.sections(cur.value)| else 0
  }

  function Version(cur: Option<Snapshot>): Option<nat> { if cur.Some? then Some(cur.value.version) else None }

  /** The transaction that replaces `cur` by `next` when nothing intervened. */
  function Replace(id: string, cur: Option<Snapshot>, next: Snapshot, codec: Codec): seq<Action<Row>> {
    SaveActions(id, Version(cur), SectionSks(Count(cur, codec), codec), next.version, codec.sections(next), codec)
  }

  lemma SectionWritten(items: Items<Row>, id: string, cur: Option<Snapshot>, next: Snapshot, codec: Codec, i: nat)
    requires codec.Lawful() && Stores(items, id, cur, codec)
    requires i < |codec.sections(next)| <= MAX_SECTIONS
    ensures Lookup(ApplyAll(items, Replace(id, cur, next, codec)), SectionKey(id, i, codec))
         == Some(Section(codec.sections(next)[i]))
  {
    var chunks, m := codec.sections(next), Count(cur, codec);
    var p := if |chunks| < m then i + (m - |chunks|) else i;
    SaveTransactionShape(id, Version(cur), m, next.version, chunks, codec);
    ActionAt(id, Version(cur), m, next.version, chunks, p, codec);
    ApplyEffect(items, Replace(id, cur, next, codec), 1 + p);
  }

  lemma SectionGone(items: Items<Row>, id: string, cur: Option<Snapshot>, next: Snapshot, codec: Codec, sk: string)
    requires codec.Lawful() && Stores(items, id, cur, codec) && |codec.sections(next)| <= MAX_SECTIONS
    requires SECTION_PREFIX <= sk && !exists i: nat :: i < |codec.sections(next)| && sk == codec.sortKey(i)
    ensures Key(Planning(id), sk) !in ApplyAll(items, Replace(id, cur, next, codec))
  {
    var chunks, m := codec.sections(next), Count(cur, codec);
    var actions, k := Replace(id, cur, next, codec), Key(Planning(id), sk);
    assert codec.sections(next) != [];
    SaveTransactionShape(id, Version(cur), m, next.version, chunks, codec);
    if i: nat :| |chunks| <= i < m && sk == codec.sortKey(i) {
      ActionAt(id, Version(cur), m, next.version, chunks, i - |chunks|, codec);
      ApplyEffect(items, actions, 1 + i - |chunks|);
    } else {
      assert k !in items;
      assert sk != "META";
      forall j | 0 <= j < |actions| ensures actions[j].key != k {
        if j > 0 { ActionAt(id, Version(cur), m, next.version, chunks, j - 1, codec); }
      }
      ApplyFrame(items, actions, k);
    }
    assert Lookup(ApplyAll(items, actions), k) == None;
  }

  lemma ReplaceCommits(items: Items<Row>, id: string, cur: Option<Snapshot>, next: Snapshot, codec: Codec)
    requires codec.Lawful() && Stores(items, id, cur, codec) && |codec.sections(next)| <= MAX_SECTIONS
    ensures Judge(items, Replace(id, cur, next, codec)) == Committed
    ensures Lookup(ApplyAll(items, Replace(id, cur, next, codec)), MetaKey(id))
         == Some(Meta(next.version, |codec.sections(next)|))
  {
    var chunks, m := codec.sections(next), Count(cur, codec);
    var actions := Replace(id, cur, next, codec);
    assert codec.sections(next) != [];
    SaveTransactionShape(id, Version(cur), m, next.version, chunks, codec);
    forall i | 1 <= i < |actions| ensures Holds(actions[i], items) {
      ActionAt(id, Version(cur), m, next.version, chunks, i - 1, codec);
    }
    assert Holds(actions[0], items);
    ApplyEffect(items, actions, 0);
  }

  lemma ReplaceFrame(items: Items<Row>, id: string, cur: Option<Snapshot>, next: Snapshot, codec: Codec, k: Key)
    requires codec.Lawful() && |codec.sections(next)| <= MAX_SECTIONS && k.pk != Planning(id)
    ensures Lookup(ApplyAll(items, Replace(id, cur, next, codec)), k) == Lookup(items, k)
  {
    var chunks, m := codec.sections(next), Count(cur, codec);
    var actions := Replace(id, cur, next, codec);
    assert codec.sections(next) != [];
    ActionAt(id, Version(cur), m, next.version, chunks, 0, codec);
    forall j | 0 <= j < |actions| ensures actions[j].key != k {
      if j > 0 { ActionAt(id, Version(cur), m, next.version, chunks, j - 1, codec); }
    }
    ApplyFrame(items, actions, k);
  }

  /** Effect of the transaction: it commits, the partition then stores the new snapshot and
      nothing of the old one, and every other partition is as before. */
  lemma ReplaceStores(items: Items<Row>, id: string, cur: Option<Snapshot>, next: Snapshot, codec: Codec)
    requires codec.Lawful() && Stores(items, id, cur, codec) && |codec.sections(next)| <= MAX_SECTIONS
    ensures var actions := Replace(id, cur, next, codec);
      && Judge(items, actions) == Committed
      && Stores(Transact(items, actions), id, Some(next), codec)
      && forall k: Key :: k.pk != Planning(id) ==> Lookup(Transact(items, actions), k) == Lookup(items, k)
  {
    var chunks := codec.sections(next);
    var after := ApplyAll(items, Replace(id, cur, next, codec));
    assert codec.sections(next) != [];
    ReplaceCommits(items, id, cur, next, codec);
    forall i: nat | i < |chunks| ensures Lookup(after, SectionKey(id, i, codec)) == Some(Section(chunks[i])) {
      SectionWritten(items, id, cur, next, codec, i);
    }
    forall sk | Key(Planning(id), sk) in after && SECTION_PREFIX <= sk
      ensures exists i: nat :: i < |chunks| && sk == codec.sortKey(i)
    {
      if !exists i: nat :: i < |chunks| && sk == codec.sortKey(i) {
        SectionGone(items, id, cur, next, codec, sk);
      }
    }
    forall k: Key | k.pk != Planning(id) ensures Lookup(after, k) == Lookup(items, k) {
      ReplaceFrame(items, id, cur, next, codec, k);
    }
  }

  // ---- The repository -----------------------------------------------------------------

  /** What a save means for a plain register holding at most one snapshot: refused unless
      the caller expects the stored version (or none in particular), else one version up. */
  function RegisterSave(cur: Option<Snapshot>, cycle: Snapshot, expected: Option<nat>, codec: Codec)
    : Result<Snapshot, StoreError>
  {
    var next := cycle.(version := (if cur.Some? then cur.value.version else 0) + 1);
    if cur.None? && expected.Some? && expected.value != 0 then Failure(VersionConflict)
    else if cur.Some? && expected.Some? && expected.value != cur.value.version then Failure(VersionConflict)
    else if |codec.sections(next)| > MAX_SECTIONS then Failure(TooManySections)
    else Success(next)
  }

  /** With the JSON codec a save of the expected version is refused exactly when the new snapshot
      takes more than 90 times 60 KiB. */
  lemma RefusedForSize(cur: Option<Snapshot>, cycle: Snapshot, expected: Option<nat>,
                       encode: Snapshot -> seq<Byte>, decode: seq<Byte> -> Option<Snapshot>)
    requires expected.None? || expected.value == if cur.Some? then cur.value.version else 0
    ensures var next := cycle.(version := (if cur.Some? then cur.value.version else 0) + 1);
      RegisterSave(cur, cycle, expected, JsonCodec(encode, decode))
        == if |encode(next)| > 5529600 then Failure(TooManySections) else Success(next)
  {
    SectionCount(encode(cycle.(version := (if cur.Some? then cur.value.version else 0) + 1)));
  }

  ghost predicate Consistent(items: Items<Row>, id: string, codec: Codec) {
    Stores(items, id, Load(items, id, codec), codec)
  }

  function SectionKeys(items: Items<Row>, id: string): seq<string> {
    var rows := Query(items, Planning(id), SECTION_PREFIX);
    seq(|rows|, i requires 0 <= i < |rows| => rows[i].0)
  }

  /** What `save` reads of a stored cycle before it writes. */
  lemma ReadForSave(items: Items<Row>, id: string, cur: Option<Snapshot>, codec: Codec)
    requires codec.Lawful()
    requires Stores(items, id, cur, codec)
    ensures MetaKey(id) in items <==> cur.Some?
    ensures cur.Some? ==> items[MetaKey(id)].version == cur.value.version
    ensures SectionSks(Count(cur, codec), codec) == if cur.Some? then SectionKeys(items, id) else []
  {
    if cur.Some? {
      QuerySections(items, id, codec.sections(cur.value), SECTION_PREFIX, codec);
    }
  }

  /** The transaction of `save` seen from outside: the cycle is replaced, others are not. */
  lemma SaveReplaces(items: Items<Row>, id: string, next: Snapshot, codec: Codec)
    requires codec.Lawful() && Consistent(items, id, codec) && |codec.sections(next)| <= MAX_SECTIONS
    ensures var actions := Replace(id, Load(items, id, codec), next, codec);
      && Judge(items, actions) == Committed
      && Load(Transact(items, actions), id, codec) == Some(next)
      && Consistent(Transact(items, actions), id, codec)
      && forall k: Key :: k.pk != Planning(id) ==> Lookup(Transact(items, actions), k) == Lookup(items, k)
  {
    var cur := Load(items, id, codec);
    ReplaceStores(items, id, cur, next, codec);
    LoadStored(Transact(items, Replace(id, cur, next, codec)), id, Some(next), codec);
  }

  class Repository {
    const table: Table<Row>
    const codec: Codec

    constructor (table: Table<Row>, codec: Codec)
      ensures this.table == table && this.codec == codec
    {
      this.table, this.codec := table, codec;
    }

    /** `get`. */
    method Get(id: string) returns (r: Option<Snapshot>)
      ensures r == Load(table.items, id, codec)
    {
      var row := table.GetItem(MetaKey(id));
      if row.None? {
        return None;
      }
      var rows := table.QueryRows(Planning(id), SNAPSHOT_PREFIX);
      r := codec.load(Contents(rows));
    }

    /** The second half of `save`: query the sections, then one transaction. */
    method Rewrite(id: string, version: Option<nat>, next: Snapshot) returns (outcome: Outcome)
      requires codec.Lawful() && Consistent(table.items, id, codec)
      requires version == Version(Load(table.items, id, codec))
      requires |codec.sections(next)| <= MAX_SECTIONS
      modifies table
      ensures outcome == Committed
      ensures table.items == old(Transact(table.items, Replace(id, Load(table.items, id, codec), next, codec)))
    {
      ghost var cur := Load(table.items, id, codec);
      ReadForSave(table.items, id, cur, codec);
      SaveReplaces(table.items, id, next, codec);
      var old_: seq<string> := [];
      if version.Some? {
        var rows := table.QueryRows(Planning(id), SECTION_PREFIX);
        old_ := seq(|rows|, i requires 0 <= i < |rows| => rows[i].0);
        assert old_ == SectionKeys(table.items, id);
      }
      outcome := table.TransactWrite(SaveActions(id, version, old_, next.version, codec.sections(next), codec));
    }

    /** `save`: over the table it behaves as over the register, and other cycles are not
        touched. */
    method Save(cycle: Snapshot, expected: Option<nat>) returns (r: Result<Snapshot, StoreError>)
      requires codec.Lawful() && Consistent(table.items, cycle.id, codec)
      modifies table
      ensures r == RegisterSave(old(Load(table.items, cycle.id, codec)), cycle, expected, codec)
      ensures Consistent(table.items, cycle.id, codec)
      ensures r.Success? ==> Load(table.items, cycle.id, codec) == Some(r.value)
      ensures r.Failure? ==> table.items == old(table.items)
      ensures forall k: Key :: k.pk != Planning(cycle.id) ==> Lookup(table.items, k) == old(Lookup(table.items, k))
    {
      ReadForSave(table.items, cycle.id, Load(table.items, cycle.id, codec), codec);
      var row := table.GetItem(MetaKey(cycle.id));
      var version := if row.Some? then Some(row.value.version) else None;
      var current := if row.Some? then row.value.version else 0;
      if (row.None? && expected.Some? && expected.value != 0)
         || (row.Some? && expected.Some? && expected.value != current) {
        return Failure(VersionConflict);
      }
      var result := cycle.(version := current + 1);
      if |codec.sections(result)| > MAX_SECTIONS {
        return Failure(TooManySections);
      }
      SaveReplaces(table.items, cycle.id, result, codec);
      var outcome := Rewrite(cycle.id, version, result);
      r := match outcome
        case Committed => Success(result)
        case Cancelled => Failure(VersionConflict)
        case Rejected => Failure(TransactionRejected);
    }
  }
}
