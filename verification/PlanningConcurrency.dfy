/** Concurrent callers of the planning repository. Each reads a cycle, computes on it and saves
    it back, or saves a new one; the META read, the section query and the transaction of every
    call are separate steps, and the steps of different callers interleave freely. */
module PlanningConcurrency {
  import opened Wrappers
  import opened DynamoTable
  import opened PlanningStore

  /** Where a caller stands. `base` is the snapshot its computation started from; `expected`
      is the version it passes to `save`. */
  datatype Phase =
    | Idle
    | MetaSeen
    | Holding(base: Snapshot)
    | Saving(origin: Option<Snapshot>, cycle: Snapshot, expected: Option<nat>)
    | VersionRead(origin: Option<Snapshot>, cycle: Snapshot, expected: Option<nat>, row: Option<nat>)
    | SectionsRead(origin: Option<Snapshot>, cycle: Snapshot, expected: Option<nat>, row: Option<nat>, keys: seq<string>)

  /** A committed save, in commit order. */
  datatype Commit = Commit(origin: Option<Snapshot>, expected: Option<nat>, saved: Snapshot)

  datatype State = State(items: Items<Row>, callers: map<nat, Phase>, commits: seq<Commit>)

  datatype Step =
    | GetMeta(caller: nat)
    | GetSections(caller: nat)
    | Compute(caller: nat, result: Snapshot)
    | Create(caller: nat, fresh_: Snapshot, guard: Option<nat>)
    | SaveReadsMeta(caller: nat)
    | SaveQueries(caller: nat)
    | SaveTransacts(caller: nat)
    | Fails(caller: nat)
    | OtherPartitions(after: Items<Row>)

  function At(s: State, c: nat): Phase { if c in s.callers then s.callers[c] else Idle }

  function Move(s: State, c: nat, phase: Phase): State { s.(callers := s.callers[c := phase]) }

  function Current(s: State): Option<Snapshot> {
    if s.commits == [] then None else Some(s.commits[|s.commits| - 1].saved)
  }

  ghost predicate SamePartition(a: Items<Row>, b: Items<Row>, id: string) {
    forall k: Key :: k.pk == Planning(id) ==> Lookup(a, k) == Lookup(b, k)
  }

  /** `save` up to its version check and its size check. */
  function AfterMetaRead(s: State, id: string, codec: Codec, p: Phase): Phase
    requires p.Saving?
  {
    var found := Lookup(s.items, MetaKey(id));
    var row := if found.Some? && found.value.Meta? then Some(found.value.version) else None;
    var current := if row.Some? then row.value else 0;
    if (row.None? && p.expected.Some? && p.expected.value != 0)
       || (row.Some? && p.expected.Some? && p.expected.value != current) then Idle
    else if |codec.sections(p.cycle.(version := current + 1))| > MAX_SECTIONS then Idle
    else VersionRead(p.origin, p.cycle, p.expected, row)
  }

  function Written(p: Phase): Snapshot
    requires p.SectionsRead?
  {
    p.cycle.(version := (if p.row.Some? then p.row.value else 0) + 1)
  }

  function TransactionOf(id: string, codec: Codec, p: Phase): seq<Action<Row>>
    requires p.SectionsRead?
  {
    SaveActions(id, p.row, p.keys, Written(p).version, codec.sections(Written(p)), codec)
  }

  /** One step of the system; a step that is not enabled changes nothing. */
  ghost function Do(s: State, id: string, codec: Codec, step: Step): State {
    match step
    case GetMeta(c) =>
      if At(s, c) == Idle && MetaKey(id) in s.items then Move(s, c, MetaSeen) else s
    case GetSections(c) =>
      if At(s, c) != MetaSeen then s
      else
        var found := codec.load(Contents(Query(s.items, Planning(id), SNAPSHOT_PREFIX)));
        Move(s, c, if found.Some? then Holding(found.value) else Idle)
    case Compute(c, result) =>
      var p := At(s, c);
      if p.Holding? && result.id == id then Move(s, c, Saving(Some(p.base), result, Some(p.base.version))) else s
    case Create(c, cycle, guard) =>
      if At(s, c) == Idle && cycle.id == id && (guard.Some? ==> guard.value == 0)
      then Move(s, c, Saving(None, cycle, guard)) else s
    case SaveReadsMeta(c) =>
      if At(s, c).Saving? then Move(s, c, AfterMetaRead(s, id, codec, At(s, c))) else s
    case SaveQueries(c) =>
      var p := At(s, c);
      if !p.VersionRead? then s
      else
        var keys := if p.row.Some? then SectionKeys(s.items, id) else [];
        Move(s, c, SectionsRead(p.origin, p.cycle, p.expected, p.row, keys))
    case SaveTransacts(c) =>
      var p := At(s, c);
      if !p.SectionsRead? then s
      else if Judge(s.items, TransactionOf(id, codec, p)) != Committed then Move(s, c, Idle)
      else State(Transact(s.items, TransactionOf(id, codec, p)), s.callers[c := Idle],
                 s.commits + [Commit(p.origin, p.expected, Written(p))])
    case Fails(c) => Move(s, c, Idle)
    case OtherPartitions(after) =>
      if SamePartition(s.items, after, id) then s.(items := after) else s
  }

  /** Any finite run: any steps, of any callers, in any order. */
  ghost function Run(s: State, id: string, codec: Codec, steps: seq<Step>): State
    decreases |steps|
  {
    if steps == [] then s else Run(Do(s, id, codec, steps[0]), id, codec, steps[1..])
  }

  // ---- What every step keeps --------------------------------------------------------------

  /** The snapshot a caller holds is one that was committed. */
  predicate WasCommitted(s: State, snapshot: Snapshot) {
    1 <= snapshot.version <= |s.commits| && s.commits[snapshot.version - 1].saved == snapshot
  }

  predicate GoodOrigin(s: State, origin: Option<Snapshot>, expected: Option<nat>) {
    match origin
    case None => expected.None? || expected == Some(0)
    case Some(base) => expected == Some(base.version) && WasCommitted(s, base)
  }

  predicate GoodRow(s: State, expected: Option<nat>, row: Option<nat>) {
    && (row.Some? ==> 1 <= row.value <= |s.commits|)
    && (expected.Some? ==> expected.value == if row.Some? then row.value else 0)
  }

  /** Section keys read after META are current whenever the version read still is. */
  predicate GoodKeys(s: State, codec: Codec, row: Option<nat>, keys: seq<string>) {
    (if row.Some? then row.value else 0) == |s.commits| ==> keys == SectionSks(Count(Current(s), codec), codec)
  }

  predicate GoodPhase(s: State, id: string, codec: Codec, p: Phase) {
    match p
    case Idle => true
    case MetaSeen => |s.commits| > 0
    case Holding(base) => WasCommitted(s, base)
    case Saving(origin, cycle, expected) => cycle.id == id && GoodOrigin(s, origin, expected)
    case VersionRead(origin, cycle, expected, row) =>
      && cycle.id == id && GoodOrigin(s, origin, expected) && GoodRow(s, expected, row)
      && |codec.sections(cycle.(version := (if row.Some? then row.value else 0) + 1))| <= MAX_SECTIONS
    case SectionsRead(origin, cycle, expected, row, keys) =>
      && cycle.id == id && GoodOrigin(s, origin, expected) && GoodRow(s, expected, row)
      && |codec.sections(cycle.(version := (if row.Some? then row.value else 0) + 1))| <= MAX_SECTIONS
      && GoodKeys(s, codec, row, keys)
  }

  function Before(s: State, i: nat): Option<Snapshot>
    requires i < |s.commits|
  {
    if i == 0 then None else Some(s.commits[i - 1].saved)
  }

  /** The commit overwrites nothing its caller has not seen. */
  predicate SawTheLast(s: State, i: nat)
    requires i < |s.commits|
  {
    s.commits[i].origin == Before(s, i)
  }

  /** The history: versions count the commits, and a save was computed from the snapshot
      committed immediately before it exactly if it named the version it expects, or was the
      first of all. */
  predicate NoLostUpdate(s: State) {
    forall i: nat :: i < |s.commits| ==>
      && s.commits[i].saved.version == i + 1
      && (SawTheLast(s, i) <==> s.commits[i].expected.Some? || i == 0)
  }

  ghost predicate Inv(s: State, id: string, codec: Codec) {
    && Stores(s.items, id, Current(s), codec)
    && NoLostUpdate(s)
    && forall c: nat :: GoodPhase(s, id, codec, At(s, c))
  }

  ghost predicate Initial(s: State, id: string, codec: Codec) {
    s.commits == [] && s.callers == map[] && Stores(s.items, id, None, codec)
  }

  lemma MoveKeeps(s: State, id: string, codec: Codec, c: nat, p: Phase)
    requires Inv(s, id, codec) && GoodPhase(s, id, codec, p)
    ensures Inv(Move(s, c, p), id, codec)
  {
    var s' := Move(s, c, p);
    forall d: nat ensures GoodPhase(s', id, codec, At(s', d)) {
      assert GoodPhase(s, id, codec, At(s, d));
    }
  }

  /** A caller that queries the sections gets the current snapshot whole, never a mixture. */
  lemma GetSectionsKeeps(s: State, id: string, codec: Codec, c: nat)
    requires codec.Lawful() && Inv(s, id, codec) && At(s, c) == MetaSeen
    ensures Current(s).Some? && Do(s, id, codec, GetSections(c)) == Move(s, c, Holding(Current(s).value))
    ensures Inv(Do(s, id, codec, GetSections(c)), id, codec)
  {
    assert GoodPhase(s, id, codec, At(s, c));
    LoadStored(s.items, id, Current(s), codec);
    MoveKeeps(s, id, codec, c, Holding(Current(s).value));
  }

  lemma SaveReadsMetaKeeps(s: State, id: string, codec: Codec, c: nat)
    requires codec.Lawful() && Inv(s, id, codec) && At(s, c).Saving?
    ensures Inv(Do(s, id, codec, SaveReadsMeta(c)), id, codec)
  {
    assert GoodPhase(s, id, codec, At(s, c));
    MetaReadIsGood(s, id, codec, At(s, c));
    MoveKeeps(s, id, codec, c, AfterMetaRead(s, id, codec, At(s, c)));
  }

  lemma MetaReadIsGood(s: State, id: string, codec: Codec, p: Phase)
    requires Inv(s, id, codec) && p.Saving? && GoodPhase(s, id, codec, p)
    ensures GoodPhase(s, id, codec, AfterMetaRead(s, id, codec, p))
  {
    if s.commits != [] { assert s.commits[|s.commits| - 1].saved.version == |s.commits|; }
  }

  lemma SaveQueriesKeeps(s: State, id: string, codec: Codec, c: nat)
    requires codec.Lawful() && Inv(s, id, codec) && At(s, c).VersionRead?
    ensures Inv(Do(s, id, codec, SaveQueries(c)), id, codec)
  {
    var p := At(s, c);
    assert GoodPhase(s, id, codec, p);
    KeysAreGood(s, id, codec, p.row);
    var keys := if p.row.Some? then SectionKeys(s.items, id) else [];
    QueryIsGood(s, id, codec, p, keys);
    MoveKeeps(s, id, codec, c, SectionsRead(p.origin, p.cycle, p.expected, p.row, keys));
  }

  lemma QueryIsGood(s: State, id: string, codec: Codec, p: Phase, keys: seq<string>)
    requires p.VersionRead? && GoodPhase(s, id, codec, p) && GoodKeys(s, codec, p.row, keys)
    ensures GoodPhase(s, id, codec, SectionsRead(p.origin, p.cycle, p.expected, p.row, keys))
  {
  }

  lemma KeysAreGood(s: State, id: string, codec: Codec, row: Option<nat>)
    requires codec.Lawful() && Stores(s.items, id, Current(s), codec) && (row.Some? ==> 1 <= row.value <= |s.commits|)
    ensures GoodKeys(s, codec, row, if row.Some? then SectionKeys(s.items, id) else [])
  {
    ReadForSave(s.items, id, Current(s), codec);
  }

  /** Phases survive a commit: histories only grow, and keys read for an older version can
      no longer be mistaken for current ones. */
  lemma CommitKeepsPhase(s: State, s': State, id: string, codec: Codec, p: Phase)
    requires GoodPhase(s, id, codec, p)
    requires |s'.commits| == |s.commits| + 1 && s'.commits[..|s.commits|] == s.commits
    ensures GoodPhase(s', id, codec, p)
  {
    assert forall i :: 0 <= i < |s.commits| ==> s'.commits[i] == s.commits[i];
  }

  /** The condition on META lets the transaction through only if nobody committed since the
      version was read; what it then writes is the replacement of the current snapshot. */
  lemma CommitIsReplacement(s: State, id: string, codec: Codec, p: Phase)
    requires Inv(s, id, codec) && p.SectionsRead? && GoodPhase(s, id, codec, p)
    requires Judge(s.items, TransactionOf(id, codec, p)) == Committed
    ensures p.row == Version(Current(s)) && Written(p).version == |s.commits| + 1
    ensures p.origin == Current(s) <==> p.expected.Some? || s.commits == []
    ensures TransactionOf(id, codec, p) == Replace(id, Current(s), Written(p), codec)
  {
    assert TransactionOf(id, codec, p)[0] == PutMeta(id, p.row, Written(p).version, |codec.sections(Written(p))|);
    assert Holds(TransactionOf(id, codec, p)[0], s.items);
  }

  lemma AppendKeepsHistory(s: State, s': State, next: Commit)
    requires NoLostUpdate(s) && s'.commits == s.commits + [next]
    requires next.saved.version == |s.commits| + 1
    requires next.origin == Current(s) <==> next.expected.Some? || s.commits == []
    ensures NoLostUpdate(s')
  {
    forall i: nat | i < |s'.commits|
      ensures s'.commits[i].saved.version == i + 1
      ensures SawTheLast(s', i) <==> s'.commits[i].expected.Some? || i == 0
    {
      if i < |s.commits| {
        assert s'.commits[i] == s.commits[i] && Before(s', i) == Before(s, i);
        assert SawTheLast(s', i) <==> SawTheLast(s, i);
      }
    }
  }

  lemma SaveTransactsKeeps(s: State, id: string, codec: Codec, c: nat)
    requires codec.Lawful() && Inv(s, id, codec) && At(s, c).SectionsRead?
    requires Judge(s.items, TransactionOf(id, codec, At(s, c))) == Committed
    ensures Inv(Do(s, id, codec, SaveTransacts(c)), id, codec)
  {
    var p := At(s, c);
    assert GoodPhase(s, id, codec, p);
    CommitIsReplacement(s, id, codec, p);
    ReplaceStores(s.items, id, Current(s), Written(p), codec);
    var s' := Do(s, id, codec, SaveTransacts(c));
    AppendKeepsHistory(s, s', Commit(p.origin, p.expected, Written(p)));
    forall d: nat ensures GoodPhase(s', id, codec, At(s', d)) {
      assert GoodPhase(s, id, codec, At(s, d));
      CommitKeepsPhase(s, s', id, codec, At(s, d));
    }
  }

  lemma OtherPartitionsKeep(s: State, id: string, codec: Codec, after: Items<Row>)
    requires Inv(s, id, codec) && SamePartition(s.items, after, id)
    ensures Inv(s.(items := after), id, codec)
  {
    var s' := s.(items := after);
    forall k: Key | k.pk == Planning(id) ensures k in after <==> k in s.items {
      assert Lookup(s.items, k) == Lookup(after, k);
    }
    assert Stores(after, id, Current(s), codec);
    forall d: nat ensures GoodPhase(s', id, codec, At(s', d)) {
      assert GoodPhase(s, id, codec, At(s, d));
    }
  }

  lemma DoKeepsInv(s: State, id: string, codec: Codec, step: Step)
    requires codec.Lawful() && Inv(s, id, codec)
    ensures Inv(Do(s, id, codec, step), id, codec)
  {
    match step {
      case GetMeta(c) =>
        if At(s, c) == Idle && MetaKey(id) in s.items { MoveKeeps(s, id, codec, c, MetaSeen); }
      case GetSections(c) =>
        if At(s, c) == MetaSeen { GetSectionsKeeps(s, id, codec, c); }
      case Compute(c, result) =>
        var p := At(s, c);
        assert GoodPhase(s, id, codec, p);
        if p.Holding? && result.id == id {
          MoveKeeps(s, id, codec, c, Saving(Some(p.base), result, Some(p.base.version)));
        }
      case Create(c, cycle, guard) =>
        if Do(s, id, codec, step) != s { MoveKeeps(s, id, codec, c, Saving(None, cycle, guard)); }
      case SaveReadsMeta(c) =>
        if At(s, c).Saving? { SaveReadsMetaKeeps(s, id, codec, c); }
      case SaveQueries(c) =>
        if At(s, c).VersionRead? { SaveQueriesKeeps(s, id, codec, c); }
      case SaveTransacts(c) =>
        if At(s, c).SectionsRead? {
          if Judge(s.items, TransactionOf(id, codec, At(s, c))) == Committed {
            SaveTransactsKeeps(s, id, codec, c);
          } else {
            MoveKeeps(s, id, codec, c, Idle);
          }
        }
      case Fails(c) => MoveKeeps(s, id, codec, c, Idle);
      case OtherPartitions(after) =>
        if SamePartition(s.items, after, id) { OtherPartitionsKeep(s, id, codec, after); }
    }
  }

  lemma {:induction false} RunKeepsInv(s: State, id: string, codec: Codec, steps: seq<Step>)
    requires codec.Lawful() && Inv(s, id, codec)
    ensures Inv(Run(s, id, codec, steps), id, codec)
    decreases |steps|
  {
    if steps != [] {
      DoKeepsInv(s, id, codec, steps[0]);
      RunKeepsInv(Do(s, id, codec, steps[0]), id, codec, steps[1..]);
    }
  }

  /** Over every run of any number of callers: the versions of the commits are 1, 2, 3, ...;
      a save was computed from the commit just before it exactly if it named its expected
      version or was the first; META carries the version of the snapshot stored; and a reader finds the last commit. */
  lemma EveryRun(s: State, id: string, codec: Codec, steps: seq<Step>)
    requires codec.Lawful() && Initial(s, id, codec)
    ensures var t := Run(s, id, codec, steps);
      && NoLostUpdate(t)
      && Load(t.items, id, codec) == Current(t)
      && (Current(t).Some? ==>
            Lookup(t.items, MetaKey(id)) == Some(Meta(Current(t).value.version, Count(Current(t), codec)))
            && Current(t).value.version == |t.commits|)
  {
    RunKeepsInv(s, id, codec, steps);
    var t := Run(s, id, codec, steps);
    LoadStored(t.items, id, Current(t), codec);
  }

  function SaveSteps(c: nat): seq<Step> { [SaveReadsMeta(c), SaveQueries(c), SaveTransacts(c)] }

  lemma RunTwo(s: State, id: string, codec: Codec, a: Step, b: Step)
    ensures Run(s, id, codec, [a, b]) == Do(Do(s, id, codec, a), id, codec, b)
  {
    assert [a, b][1..] == [b] && [b][1..] == [];
    assert Run(Do(s, id, codec, a), id, codec, [b]) == Run(Do(Do(s, id, codec, a), id, codec, b), id, codec, []);
  }

  lemma RunThree(s: State, id: string, codec: Codec, a: Step, b: Step, c: Step)
    ensures Run(s, id, codec, [a, b, c]) == Do(Do(Do(s, id, codec, a), id, codec, b), id, codec, c)
  {
    assert [a, b, c][1..] == [b, c];
    RunTwo(Do(s, id, codec, a), id, codec, b, c);
  }

  /** META's version counts the commits. */
  lemma MetaCounts(s: State, id: string, codec: Codec)
    requires Stores(s.items, id, Current(s), codec) && NoLostUpdate(s)
    ensures var found := Lookup(s.items, MetaKey(id));
      if s.commits == [] then found.None? else found.Some? && found.value.Meta? && found.value.version == |s.commits|
    ensures Version(Current(s)) == if s.commits == [] then None else Some(|s.commits|)
  {
    if s.commits != [] { assert s.commits[|s.commits| - 1].saved.version == |s.commits|; }
  }

  lemma MetaReadIs(s: State, id: string, codec: Codec, p: Phase)
    requires Stores(s.items, id, Current(s), codec) && NoLostUpdate(s) && p.Saving?
    requires |codec.sections(p.cycle.(version := |s.commits| + 1))| <= MAX_SECTIONS
    ensures AfterMetaRead(s, id, codec, p)
         == if p.expected.Some? && p.expected.value != |s.commits| then Idle
            else VersionRead(p.origin, p.cycle, p.expected, Version(Current(s)))
  {
    MetaCounts(s, id, codec);
  }

  lemma FirstRead(s: State, id: string, codec: Codec, c: nat)
    requires codec.Lawful() && Inv(s, id, codec) && At(s, c).Saving?
    requires |codec.sections(At(s, c).cycle.(version := |s.commits| + 1))| <= MAX_SECTIONS
    ensures var p := At(s, c);
      Do(s, id, codec, SaveReadsMeta(c)) == Move(s, c,
        if p.expected.Some? && p.expected.value != |s.commits| then Idle
        else VersionRead(p.origin, p.cycle, p.expected, Version(Current(s))))
  {
    MetaReadIs(s, id, codec, At(s, c));
  }

  lemma ThenQuery(s: State, id: string, codec: Codec, c: nat)
    requires codec.Lawful() && Inv(s, id, codec) && At(s, c).VersionRead? && At(s, c).row == Version(Current(s))
    ensures var p := At(s, c);
      Do(s, id, codec, SaveQueries(c)) == Move(s, c,
        SectionsRead(p.origin, p.cycle, p.expected, p.row, SectionSks(Count(Current(s), codec), codec)))
  {
    ReadForSave(s.items, id, Current(s), codec);
  }

  lemma ThenTransact(s: State, id: string, codec: Codec, c: nat)
    requires codec.Lawful() && Inv(s, id, codec) && At(s, c).SectionsRead?
    requires At(s, c).row == Version(Current(s)) && At(s, c).keys == SectionSks(Count(Current(s), codec), codec)
    ensures var p, t := At(s, c), Do(s, id, codec, SaveTransacts(c));
      && t.commits == s.commits + [Commit(p.origin, p.expected, p.cycle.(version := |s.commits| + 1))]
      && t.callers == s.callers[c := Idle] && forall d: nat :: d != c ==> At(t, d) == At(s, d)
  {
    var p := At(s, c);
    assert s.commits != [] ==> s.commits[|s.commits| - 1].saved.version == |s.commits|;
    assert GoodPhase(s, id, codec, p);
    ReplaceStores(s.items, id, Current(s), Written(p), codec);
  }

  ghost function Reads(s: State, id: string, codec: Codec, c: nat): State {
    Do(Do(s, id, codec, SaveReadsMeta(c)), id, codec, SaveQueries(c))
  }

  ghost function WholeSave(s: State, id: string, codec: Codec, c: nat): State {
    Do(Reads(s, id, codec, c), id, codec, SaveTransacts(c))
  }

  lemma MoveTwice(s: State, c: nat, p: Phase, q: Phase)
    ensures Move(Move(s, c, p), c, q) == Move(s, c, q) && At(Move(s, c, p), c) == p
    ensures forall d: nat :: d != c ==> At(Move(s, c, p), d) == At(s, d)
  {
    assert s.callers[c := p][c := q] == s.callers[c := q];
  }

  lemma ReadsKeepInv(s: State, id: string, codec: Codec, c: nat)
    requires codec.Lawful() && Inv(s, id, codec)
    ensures Inv(Do(s, id, codec, SaveReadsMeta(c)), id, codec) && Inv(Reads(s, id, codec, c), id, codec)
  {
    DoKeepsInv(s, id, codec, SaveReadsMeta(c));
    DoKeepsInv(Do(s, id, codec, SaveReadsMeta(c)), id, codec, SaveQueries(c));
  }

  /** Where an undisturbed save stands before its transaction. */
  function ReadyToWrite(s: State, codec: Codec, p: Phase): Phase
    requires p.Saving?
  {
    if p.expected.Some? && p.expected.value != |s.commits| then Idle
    else SectionsRead(p.origin, p.cycle, p.expected, Version(Current(s)), SectionSks(Count(Current(s), codec), codec))
  }

  /** The query after a version that is still current. */
  lemma UndisturbedQuery(s: State, id: string, codec: Codec, c: nat, p: Phase, read: Phase)
    requires codec.Lawful() && Inv(s, id, codec) && p.Saving? && read == VersionRead(p.origin, p.cycle, p.expected, Version(Current(s)))
    requires Do(s, id, codec, SaveReadsMeta(c)) == Move(s, c, read)
    ensures Reads(s, id, codec, c)
         == Move(s, c, SectionsRead(p.origin, p.cycle, p.expected, Version(Current(s)), SectionSks(Count(Current(s), codec), codec)))
  {
    ReadsKeepInv(s, id, codec, c);
    MoveTwice(s, c, read,
              SectionsRead(p.origin, p.cycle, p.expected, Version(Current(s)), SectionSks(Count(Current(s), codec), codec)));
    ThenQuery(Move(s, c, read), id, codec, c);
  }

  lemma UndisturbedReads(s: State, id: string, codec: Codec, c: nat)
    requires codec.Lawful() && Inv(s, id, codec) && At(s, c).Saving?
    requires |codec.sections(At(s, c).cycle.(version := |s.commits| + 1))| <= MAX_SECTIONS
    ensures Reads(s, id, codec, c) == Move(s, c, ReadyToWrite(s, codec, At(s, c)))
  {
    var p, q := At(s, c), ReadyToWrite(s, codec, At(s, c));
    FirstRead(s, id, codec, c);
    if q == Idle {
      MoveTwice(s, c, Idle, Idle);
    } else {
      UndisturbedQuery(s, id, codec, c, p, VersionRead(p.origin, p.cycle, p.expected, Version(Current(s))));
    }
  }

  /** The commits of a save that expects the current version, or none. */
  function Saved(s: State, p: Phase): seq<Commit>
    requires p.Saving?
  {
    if p.expected.Some? && p.expected.value != |s.commits| then s.commits
    else s.commits + [Commit(p.origin, p.expected, p.cycle.(version := |s.commits| + 1))]
  }

  ghost predicate OnlyCommits(s: State, t: State, c: nat, commits: seq<Commit>) {
    t.commits == commits && forall d: nat :: d != c ==> At(t, d) == At(s, d)
  }

  lemma LastStep(s: State, id: string, codec: Codec, c: nat, p: Phase)
    requires codec.Lawful() && p.Saving? && Inv(Move(s, c, ReadyToWrite(s, codec, p)), id, codec)
    ensures OnlyCommits(s, Do(Move(s, c, ReadyToWrite(s, codec, p)), id, codec, SaveTransacts(c)), c, Saved(s, p))
  {
    var q := ReadyToWrite(s, codec, p);
    MoveTwice(s, c, q, q);
    if q.SectionsRead? { ThenTransact(Move(s, c, q), id, codec, c); }
  }

  /** A save that nobody disturbs goes through, unless it expects another version than the
      current one. */
  lemma UndisturbedSave(s: State, id: string, codec: Codec, c: nat)
    requires codec.Lawful() && Inv(s, id, codec) && At(s, c).Saving?
    requires |codec.sections(At(s, c).cycle.(version := |s.commits| + 1))| <= MAX_SECTIONS
    ensures OnlyCommits(s, WholeSave(s, id, codec, c), c, Saved(s, At(s, c)))
  {
    UndisturbedReads(s, id, codec, c);
    ReadsKeepInv(s, id, codec, c);
    LastStep(s, id, codec, c, At(s, c));
  }

  lemma {:induction false} RunConcat(s: State, id: string, codec: Codec, first: seq<Step>, then_: seq<Step>)
    ensures Run(s, id, codec, first + then_) == Run(Run(s, id, codec, first), id, codec, then_)
    decreases |first|
  {
    if first == [] {
      assert first + then_ == then_;
    } else {
      assert (first + then_)[1..] == first[1..] + then_;
      RunConcat(Do(s, id, codec, first[0]), id, codec, first[1..], then_);
    }
  }

  lemma SavesInFull(s: State, id: string, codec: Codec, c: nat)
    requires codec.Lawful() && Inv(s, id, codec) && At(s, c).Saving?
    requires |codec.sections(At(s, c).cycle.(version := |s.commits| + 1))| <= MAX_SECTIONS
    ensures Inv(Run(s, id, codec, SaveSteps(c)), id, codec)
    ensures OnlyCommits(s, Run(s, id, codec, SaveSteps(c)), c, Saved(s, At(s, c)))
  {
    UndisturbedSave(s, id, codec, c);
    RunThree(s, id, codec, SaveReadsMeta(c), SaveQueries(c), SaveTransacts(c));
    RunKeepsInv(s, id, codec, SaveSteps(c));
  }

  /** Two callers have each made a cycle and are about to save it. */
  lemma BothCreate(id: string, codec: Codec, mine: Snapshot, theirs: Snapshot)
    requires codec.Lawful() && mine.id == id && theirs.id == id
    ensures var t := Run(State(map[], map[], []), id, codec, [Create(1, mine, None), Create(2, theirs, None)]);
      Inv(t, id, codec) && t.commits == [] && At(t, 1) == Saving(None, mine, None) && At(t, 2) == Saving(None, theirs, None)
  {
    var s := State(map[], map[], []);
    RunTwo(s, id, codec, Create(1, mine, None), Create(2, theirs, None));
    RunKeepsInv(s, id, codec, [Create(1, mine, None), Create(2, theirs, None)]);
  }

  /** From there one saves after the other. */
  lemma BothSave(s: State, id: string, codec: Codec, before: seq<Step>, mine: Snapshot, theirs: Snapshot)
    requires codec.Lawful() && mine.id == id && theirs.id == id && Initial(s, id, codec)
    requires |codec.sections(theirs.(version := 1))| <= MAX_SECTIONS && |codec.sections(mine.(version := 2))| <= MAX_SECTIONS
    requires var t := Run(s, id, codec, before);
      Inv(t, id, codec) && t.commits == [] && At(t, 1) == Saving(None, mine, None) && At(t, 2) == Saving(None, theirs, None)
    ensures var t := Run(s, id, codec, before + SaveSteps(2) + SaveSteps(1));
      && t.commits == [Commit(None, None, theirs.(version := 1)), Commit(None, None, mine.(version := 2))]
      && Load(t.items, id, codec) == Some(mine.(version := 2))
  {
    var t := Run(s, id, codec, before);
    SavesInFull(t, id, codec, 2);
    SavesInFull(Run(t, id, codec, SaveSteps(2)), id, codec, 1);
    RunConcat(s, id, codec, before, SaveSteps(2));
    RunConcat(s, id, codec, before + SaveSteps(2), SaveSteps(1));
    EveryRun(s, id, codec, before + SaveSteps(2) + SaveSteps(1));
  }

  /** The guard is needed: a save that names no expected version, as when a cycle is created,
      can overwrite a cycle that another caller created and saved after it began. */
  lemma UnguardedSaveLosesUpdate(id: string, codec: Codec, mine: Snapshot, theirs: Snapshot)
    requires codec.Lawful() && mine.id == id && theirs.id == id
    requires |codec.sections(theirs.(version := 1))| <= MAX_SECTIONS
    requires |codec.sections(mine.(version := 2))| <= MAX_SECTIONS
    ensures var steps := [Create(1, mine, None), Create(2, theirs, None)] + SaveSteps(2) + SaveSteps(1);
      var t := Run(State(map[], map[], []), id, codec, steps);
      && t.commits == [Commit(None, None, theirs.(version := 1)), Commit(None, None, mine.(version := 2))]
      && Load(t.items, id, codec) == Some(mine.(version := 2))
  {
    BothCreate(id, codec, mine, theirs);
    BothSave(State(map[], map[], []), id, codec, [Create(1, mine, None), Create(2, theirs, None)], mine, theirs);
  }
}
