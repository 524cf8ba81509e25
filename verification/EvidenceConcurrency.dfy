/** Concurrent `store` calls. The source read, the lock read, the read of the canonical record,
    the transaction, and after a lost race the second lock read, the second record read and
    the second transaction are separate steps, and the steps of different callers interleave
    freely; sources may come and go at any time. Nothing is deleted meanwhile. */
module EvidenceConcurrency {
  import opened Wrappers
  import opened PrefixCode
  import opened DynamoTable
  import opened EvidenceModel
  import opened EvidenceTable

  /** Where a store call stands. */
  datatype Phase =
    | Idle
    | Started(draft: Draft, id: string, digest: string)
    | SourceSeen(draft: Draft, id: string, digest: string)
    | LockSeen(draft: Draft, id: string, digest: string, holder: string)
    | Decided(draft: Draft, id: string, digest: string, canonical: Option<string>)
    | LostRace(draft: Draft, id: string, digest: string)
    | WinnerSeen(draft: Draft, id: string, digest: string, holder: string)
    | Late(draft: Draft, id: string, digest: string, winner: string)

  /** A committed store: the record, whether `store` called it a duplicate, and whether the
      caller learnt of it (a committed write can still be reported as unavailable). */
  datatype Commit = Commit(record: EvidenceModel.Evidence, duplicate: bool, reported: bool)

  datatype State = State(items: Items<Row>, model: Model, callers: map<nat, Phase>, commits: seq<Commit>)

  datatype Step =
    | Begin(caller: nat, draft: Draft, id: string)
    | ReadsSource(caller: nat)
    | ReadsLock(caller: nat)
    | ReadsHolder(caller: nat)
    | Transacts(caller: nat, reported: bool)
    | IsRefused(caller: nat)
    | ReadsWinner(caller: nat)
    | ReadsWinnerRecord(caller: nat)
    | TransactsLate(caller: nat, reported: bool)
    | Fails(caller: nat)
    | OthersWrite(after: Items<Row>)

  function At(s: State, c: nat): Phase { if c in s.callers then s.callers[c] else Idle }

  function Move(s: State, c: nat, p: Phase): State { s.(callers := s.callers[c := p]) }

  function LockHolder(s: State, digest: string): Option<string> {
    var row := Lookup(s.items, LockKey(digest));
    if row.Some? && row.value.Lock? then Some(row.value.canonicalId) else None
  }

  function ChunksFor(p: Phase, lib: Library): seq<seq<Byte>>
    requires !p.Idle?
  {
    ChunksOf(Entry(Stored(Original(p.draft, p.id, p.digest, lib)), Normalized(p.draft, lib)), lib)
  }

  function FirstActions(p: Phase, lib: Library): seq<Action<Row>>
    requires p.Decided?
  {
    match p.canonical
    case Some(c) => DuplicateActions(Duplicate(p.draft, p.id, p.digest, c), c, true, lib)
    case None => OriginalActions(Original(p.draft, p.id, p.digest, lib), ChunksFor(p, lib), lib)
  }

  function FirstRecord(p: Phase, lib: Library): EvidenceModel.Evidence
    requires p.Decided?
  {
    if p.canonical.Some? then Duplicate(p.draft, p.id, p.digest, p.canonical.value)
    else Original(p.draft, p.id, p.digest, lib)
  }

  function LateActions(p: Phase, lib: Library): seq<Action<Row>>
    requires p.Late?
  {
    DuplicateActions(Duplicate(p.draft, p.id, p.digest, p.winner), p.winner, false, lib)
  }

  function Committing(s: State, c: nat, actions: seq<Action<Row>>, e: EvidenceModel.Evidence, dup: bool, reported: bool): State {
    State(ApplyAll(s.items, actions), Add(s.model, e), s.callers[c := Idle], s.commits + [Commit(e, dup, reported)])
  }

  /** What a refused first transaction leads to. */
  function Refused(p: Phase): Phase
    requires p.Decided?
  {
    if p.canonical.Some? then Idle else LostRace(p.draft, p.id, p.digest)
  }

  /** One step of the system; a step that is not enabled changes nothing. */
  ghost function Do(s: State, lib: Library, step: Step): State {
    match step
    case Begin(c, v, id) =>
      if At(s, c).Idle? && Digest(v, lib).Some? && (v.content.Some? ==> lib.split(Normalized(v, lib).value).Success?)
      then Move(s, c, Started(v, id, Digest(v, lib).value)) else s
    case ReadsSource(c) =>
      var p := At(s, c);
      if !p.Started? then s
      else Move(s, c, if HasSource(s.items, p.draft.sourceId) then SourceSeen(p.draft, p.id, p.digest) else Idle)
    case ReadsLock(c) =>
      var p := At(s, c);
      if !p.SourceSeen? then s
      else
        var holder := LockHolder(s, p.digest);
        Move(s, c, if holder.Some? then LockSeen(p.draft, p.id, p.digest, holder.value)
                   else Decided(p.draft, p.id, p.digest, None))
    case ReadsHolder(c) =>
      var p := At(s, c);
      if !p.LockSeen? then s
      else
        var found := Fetch(s.items, p.holder, lib);
        Move(s, c, if found.Broken? then Idle
                   else Decided(p.draft, p.id, p.digest, if found.Present? then Some(p.holder) else None))
    case Transacts(c, reported) =>
      var p := At(s, c);
      if !p.Decided? then s
      else if Judge(s.items, FirstActions(p, lib)) != Committed then Move(s, c, Refused(p))
      else Committing(s, c, FirstActions(p, lib), FirstRecord(p, lib), p.canonical.Some?, reported)
    case IsRefused(c) =>
      if At(s, c).Decided? then Move(s, c, Refused(At(s, c))) else s
    case ReadsWinner(c) =>
      var p := At(s, c);
      if !p.LostRace? then s
      else
        var holder := LockHolder(s, p.digest);
        Move(s, c, if holder.Some? then WinnerSeen(p.draft, p.id, p.digest, holder.value) else Idle)
    case ReadsWinnerRecord(c) =>
      var p := At(s, c);
      if !p.WinnerSeen? then s
      else Move(s, c, if Fetch(s.items, p.holder, lib).Present? then Late(p.draft, p.id, p.digest, p.holder) else Idle)
    case TransactsLate(c, reported) =>
      var p := At(s, c);
      if !p.Late? then s
      else if Judge(s.items, LateActions(p, lib)) != Committed then Move(s, c, Idle)
      else Committing(s, c, LateActions(p, lib), Duplicate(p.draft, p.id, p.digest, p.winner), true, reported)
    case Fails(c) => Move(s, c, Idle)
    case OthersWrite(after) =>
      if forall k: Key :: Owned(k.pk) ==> Lookup(after, k) == Lookup(s.items, k) then s.(items := after) else s
  }

  ghost function Run(s: State, lib: Library, steps: seq<Step>): State
    decreases |steps|
  {
    if steps == [] then s else Run(Do(s, lib, steps[0]), lib, steps[1..])
  }

  // ---- What every step keeps --------------------------------------------------------------

  predicate IsHeldBy(m: Model, digest: string, c: string) {
    Canonical(m, c) && m.entries[c].meta.contentHash == digest
  }

  predicate GoodPhase(m: Model, lib: Library, p: Phase) {
    && (!p.Idle? ==> p.draft.content.Some? ==> lib.split(Normalized(p.draft, lib).value).Success?)
    && (p.LockSeen? || p.WinnerSeen? ==> IsHeldBy(m, p.digest, p.holder))
    && (p.Decided? && p.canonical.Some? ==> IsHeldBy(m, p.digest, p.canonical.value))
    && (p.Late? ==> IsHeldBy(m, p.digest, p.winner))
  }

  /** Every commit is a record of the table; it is a duplicate or an original as reported, and
      points at the holder of its digest. */
  predicate GoodCommit(m: Model, c: Commit) {
    && c.record.id in m.entries && m.entries[c.record.id] == Entry(Stored(c.record), c.record.content)
    && c.duplicate == c.record.duplicateOf.Some?
    && c.record.contentHash in m.locks
    && (if c.duplicate then c.record.duplicateOf.value else c.record.id) == m.locks[c.record.contentHash]
  }

  predicate OriginalsApart(s: State) {
    forall i, j :: 0 <= i < j < |s.commits| && !s.commits[i].duplicate && !s.commits[j].duplicate ==>
      s.commits[i].record.contentHash != s.commits[j].record.contentHash
  }

  /** Originals are never committed twice for a digest, and a digest is locked only by one. */
  predicate OneOriginal(s: State) {
    && OriginalsApart(s)
    && (forall d :: d in s.model.locks ==>
          exists i :: 0 <= i < |s.commits| && !s.commits[i].duplicate && s.commits[i].record.contentHash == d)
  }

  ghost predicate Inv(s: State, lib: Library) {
    && Represents(s.items, s.model, lib) && Coherent(s.model, lib)
    && (forall c: nat :: GoodPhase(s.model, lib, At(s, c)))
    && (forall i :: 0 <= i < |s.commits| ==> GoodCommit(s.model, s.commits[i]))
    && OneOriginal(s)
  }

  ghost predicate Initial(s: State, lib: Library) {
    && s.model == Model(map[], map[]) && Represents(s.items, s.model, lib) && s.callers == map[] && s.commits == []
  }

  lemma MoveKeeps(s: State, lib: Library, c: nat, p: Phase)
    requires Inv(s, lib) && GoodPhase(s.model, lib, p)
    ensures Inv(Move(s, c, p), lib)
  {
    var s' := Move(s, c, p);
    forall d: nat ensures GoodPhase(s'.model, lib, At(s', d)) {
      assert GoodPhase(s.model, lib, At(s, d));
    }
    assert OneOriginal(s');
  }

  lemma LockHolderHolds(s: State, lib: Library, digest: string)
    requires Inv(s, lib)
    ensures LockHolder(s, digest) == if digest in s.model.locks then Some(s.model.locks[digest]) else None
    ensures LockHolder(s, digest).Some? ==> IsHeldBy(s.model, digest, LockHolder(s, digest).value)
  {
    assert Lookup(s.items, LockKey(digest)) == Expected(s.model, lib, LockKey(digest));
  }

  /** The records only grow, so what a caller knows stays true. */
  lemma AddKeepsKnowledge(m: Model, e: EvidenceModel.Evidence, lib: Library, p: Phase)
    requires GoodPhase(m, lib, p) && e.id !in m.entries
    ensures GoodPhase(Add(m, e), lib, p)
  {
  }

  lemma AddKeepsCommit(m: Model, e: EvidenceModel.Evidence, c: Commit)
    requires GoodCommit(m, c) && e.id !in m.entries && (e.duplicateOf.None? ==> e.contentHash !in m.locks)
    ensures GoodCommit(Add(m, e), c)
  {
  }

  lemma OriginalsStayApart(s: State, s': State, lib: Library, e: EvidenceModel.Evidence, reported: bool)
    requires Inv(s, lib) && s'.commits == s.commits + [Commit(e, e.duplicateOf.Some?, reported)]
    requires e.duplicateOf.None? ==> e.contentHash !in s.model.locks
    ensures OriginalsApart(s')
  {
    assert forall i :: 0 <= i < |s.commits| ==> s'.commits[i] == s.commits[i] && GoodCommit(s.model, s.commits[i]);
  }

  lemma LocksStayEarned(s: State, s': State, lib: Library, e: EvidenceModel.Evidence, reported: bool, d: string)
    requires Inv(s, lib) && s'.commits == s.commits + [Commit(e, e.duplicateOf.Some?, reported)] && s'.model == Add(s.model, e)
    requires d in s'.model.locks
    ensures exists i :: 0 <= i < |s'.commits| && !s'.commits[i].duplicate && s'.commits[i].record.contentHash == d
  {
    if d in s.model.locks {
      var i :| 0 <= i < |s.commits| && !s.commits[i].duplicate && s.commits[i].record.contentHash == d;
      assert s'.commits[i] == s.commits[i];
    } else {
      assert s'.commits[|s.commits|].record.contentHash == d;
    }
  }

  lemma CommitKeepsOneOriginal(s: State, s': State, lib: Library, e: EvidenceModel.Evidence, reported: bool)
    requires Inv(s, lib)
    requires s'.commits == s.commits + [Commit(e, e.duplicateOf.Some?, reported)] && s'.model == Add(s.model, e)
    requires e.duplicateOf.None? ==> e.contentHash !in s.model.locks
    ensures OneOriginal(s')
  {
    OriginalsStayApart(s, s', lib, e, reported);
    forall d | d in s'.model.locks
      ensures exists i :: 0 <= i < |s'.commits| && !s'.commits[i].duplicate && s'.commits[i].record.contentHash == d
    {
      LocksStayEarned(s, s', lib, e, reported, d);
    }
  }

  lemma CommitKeepsPhases(s: State, s': State, lib: Library, c: nat, e: EvidenceModel.Evidence)
    requires (forall d: nat :: GoodPhase(s.model, lib, At(s, d))) && e.id !in s.model.entries
    requires s'.model == Add(s.model, e) && s'.callers == s.callers[c := Idle]
    ensures forall d: nat :: GoodPhase(s'.model, lib, At(s', d))
  {
    forall d: nat ensures GoodPhase(s'.model, lib, At(s', d)) {
      assert GoodPhase(s.model, lib, At(s, d));
      AddKeepsKnowledge(s.model, e, lib, At(s, d));
    }
  }

  lemma CommitKeepsCommits(s: State, s': State, lib: Library, e: EvidenceModel.Evidence, reported: bool)
    requires Inv(s, lib) && e.id !in s.model.entries
    requires if e.duplicateOf.Some? then IsHeldBy(s.model, e.contentHash, e.duplicateOf.value)
             else e.contentHash !in s.model.locks
    requires s'.model == Add(s.model, e) && s'.commits == s.commits + [Commit(e, e.duplicateOf.Some?, reported)]
    ensures forall i :: 0 <= i < |s'.commits| ==> GoodCommit(s'.model, s'.commits[i])
  {
    forall i | 0 <= i < |s'.commits| ensures GoodCommit(s'.model, s'.commits[i]) {
      if i < |s.commits| {
        AddKeepsCommit(s.model, e, s.commits[i]);
      } else if e.duplicateOf.Some? {
        assert GoodEntry(s.model, e.duplicateOf.value, lib);
      }
    }
  }

  lemma CommitKeeps(s: State, lib: Library, c: nat, actions: seq<Action<Row>>, e: EvidenceModel.Evidence, reported: bool)
    requires Inv(s, lib) && e.id !in s.model.entries
    requires Represents(ApplyAll(s.items, actions), Add(s.model, e), lib) && Coherent(Add(s.model, e), lib)
    requires if e.duplicateOf.Some? then IsHeldBy(s.model, e.contentHash, e.duplicateOf.value)
             else e.contentHash !in s.model.locks
    ensures Inv(Committing(s, c, actions, e, e.duplicateOf.Some?, reported), lib)
  {
    var s' := Committing(s, c, actions, e, e.duplicateOf.Some?, reported);
    CommitKeepsPhases(s, s', lib, c, e);
    CommitKeepsCommits(s, s', lib, e, reported);
    CommitKeepsOneOriginal(s, s', lib, e, reported);
  }

  lemma DuplicateCommits(s: State, lib: Library, c: nat, p: Phase, holder: string, checked: bool, reported: bool)
    requires lib.Lawful() && Inv(s, lib) && !p.Idle? && IsHeldBy(s.model, p.digest, holder)
    requires Judge(s.items, DuplicateActions(Duplicate(p.draft, p.id, p.digest, holder), holder, checked, lib)) == Committed
    ensures var e := Duplicate(p.draft, p.id, p.digest, holder);
      Inv(Committing(s, c, DuplicateActions(e, holder, checked, lib), e, true, reported), lib)
  {
    var e := Duplicate(p.draft, p.id, p.digest, holder);
    DuplicateJudged(s.items, s.model, lib, e, holder, checked);
    DuplicateStored(s.items, s.model, lib, e, holder, checked);
    assert GoodEntry(s.model, holder, lib);
    AddDuplicateKeeps(s.model, e, lib);
    CommitKeeps(s, lib, c, DuplicateActions(e, holder, checked, lib), e, reported);
  }

  lemma OriginalCommits(s: State, lib: Library, c: nat, p: Phase, reported: bool)
    requires lib.Lawful() && Inv(s, lib) && p.Decided? && p.canonical.None? && GoodPhase(s.model, lib, p)
    requires Judge(s.items, FirstActions(p, lib)) == Committed
    ensures Inv(Committing(s, c, FirstActions(p, lib), FirstRecord(p, lib), false, reported), lib)
  {
    var e := Original(p.draft, p.id, p.digest, lib);
    OriginalJudged(s.items, s.model, lib, e, ChunksFor(p, lib));
    OriginalStored(s.items, s.model, lib, e, ChunksFor(p, lib));
    AddOriginalKeeps(s.model, e, lib);
    CommitKeeps(s, lib, c, FirstActions(p, lib), e, reported);
  }

  lemma TransactsKeeps(s: State, lib: Library, c: nat, reported: bool)
    requires lib.Lawful() && Inv(s, lib)
    ensures Inv(Do(s, lib, Transacts(c, reported)), lib)
  {
    var p := At(s, c);
    assert GoodPhase(s.model, lib, p);
    if p.Decided? {
      if Judge(s.items, FirstActions(p, lib)) != Committed {
        MoveKeeps(s, lib, c, Refused(p));
      } else if p.canonical.Some? {
        DuplicateCommits(s, lib, c, p, p.canonical.value, true, reported);
      } else {
        OriginalCommits(s, lib, c, p, reported);
      }
    }
  }

  lemma TransactsLateKeeps(s: State, lib: Library, c: nat, reported: bool)
    requires lib.Lawful() && Inv(s, lib)
    ensures Inv(Do(s, lib, TransactsLate(c, reported)), lib)
  {
    var p := At(s, c);
    assert GoodPhase(s.model, lib, p);
    if p.Late? {
      if Judge(s.items, LateActions(p, lib)) != Committed {
        MoveKeeps(s, lib, c, Idle);
      } else {
        DuplicateCommits(s, lib, c, p, p.winner, false, reported);
      }
    }
  }

  lemma BeginKeeps(s: State, lib: Library, c: nat, v: Draft, id: string)
    requires Inv(s, lib)
    ensures Inv(Do(s, lib, Begin(c, v, id)), lib)
  {
    if Do(s, lib, Begin(c, v, id)) != s { MoveKeeps(s, lib, c, Started(v, id, Digest(v, lib).value)); }
  }

  lemma ReadsSourceKeeps(s: State, lib: Library, c: nat)
    requires Inv(s, lib)
    ensures Inv(Do(s, lib, ReadsSource(c)), lib)
  {
    var p := At(s, c);
    assert GoodPhase(s.model, lib, p);
    if p.Started? {
      MoveKeeps(s, lib, c, if HasSource(s.items, p.draft.sourceId) then SourceSeen(p.draft, p.id, p.digest) else Idle);
    }
  }

  lemma ReadsLockKeeps(s: State, lib: Library, c: nat)
    requires Inv(s, lib)
    ensures Inv(Do(s, lib, ReadsLock(c)), lib) && Inv(Do(s, lib, ReadsWinner(c)), lib)
  {
    var p := At(s, c);
    assert GoodPhase(s.model, lib, p);
    if p.SourceSeen? || p.LostRace? {
      LockHolderHolds(s, lib, p.digest);
      var holder := LockHolder(s, p.digest);
      if p.LostRace? {
        MoveKeeps(s, lib, c, if holder.Some? then WinnerSeen(p.draft, p.id, p.digest, holder.value) else Idle);
      } else {
        MoveKeeps(s, lib, c, if holder.Some? then LockSeen(p.draft, p.id, p.digest, holder.value)
                             else Decided(p.draft, p.id, p.digest, None));
      }
    }
  }

  lemma ReadsHolderKeeps(s: State, lib: Library, c: nat)
    requires Inv(s, lib)
    ensures Inv(Do(s, lib, ReadsHolder(c)), lib)
  {
    var p := At(s, c);
    assert GoodPhase(s.model, lib, p);
    if p.LockSeen? {
      var found := Fetch(s.items, p.holder, lib);
      MoveKeeps(s, lib, c, if found.Broken? then Idle
                           else Decided(p.draft, p.id, p.digest, if found.Present? then Some(p.holder) else None));
    }
  }

  lemma ReadsWinnerRecordKeeps(s: State, lib: Library, c: nat)
    requires Inv(s, lib)
    ensures Inv(Do(s, lib, ReadsWinnerRecord(c)), lib)
  {
    var p := At(s, c);
    assert GoodPhase(s.model, lib, p);
    if p.WinnerSeen? {
      MoveKeeps(s, lib, c, if Fetch(s.items, p.holder, lib).Present? then Late(p.draft, p.id, p.digest, p.holder) else Idle);
    }
  }

  lemma RefusedKeeps(s: State, lib: Library, c: nat)
    requires Inv(s, lib)
    ensures Inv(Do(s, lib, IsRefused(c)), lib)
  {
    assert GoodPhase(s.model, lib, At(s, c));
    if At(s, c).Decided? { MoveKeeps(s, lib, c, Refused(At(s, c))); }
  }

  lemma OthersWriteKeeps(s: State, lib: Library, after: Items<Row>)
    requires Inv(s, lib)
    ensures Inv(Do(s, lib, OthersWrite(after)), lib)
  {
    var s' := Do(s, lib, OthersWrite(after));
    assert OneOriginal(s');
    assert forall c: nat :: At(s', c) == At(s, c);
  }

  lemma DoKeepsInv(s: State, lib: Library, step: Step)
    requires lib.Lawful() && Inv(s, lib)
    ensures Inv(Do(s, lib, step), lib)
  {
    match step
    case Begin(c, v, id) => BeginKeeps(s, lib, c, v, id);
    case ReadsSource(c) => ReadsSourceKeeps(s, lib, c);
    case ReadsLock(c) => ReadsLockKeeps(s, lib, c);
    case ReadsHolder(c) => ReadsHolderKeeps(s, lib, c);
    case Transacts(c, reported) => TransactsKeeps(s, lib, c, reported);
    case IsRefused(c) => RefusedKeeps(s, lib, c);
    case ReadsWinner(c) => ReadsLockKeeps(s, lib, c);
    case ReadsWinnerRecord(c) => ReadsWinnerRecordKeeps(s, lib, c);
    case TransactsLate(c, reported) => TransactsLateKeeps(s, lib, c, reported);
    case Fails(c) => MoveKeeps(s, lib, c, Idle);
    case OthersWrite(after) => OthersWriteKeeps(s, lib, after);
  }

  lemma {:induction false} RunKeepsInv(s: State, lib: Library, steps: seq<Step>)
    requires lib.Lawful() && Inv(s, lib)
    ensures Inv(Run(s, lib, steps), lib)
    decreases |steps|
  {
    if steps != [] {
      DoKeepsInv(s, lib, steps[0]);
      RunKeepsInv(Do(s, lib, steps[0]), lib, steps[1..]);
    }
  }

  predicate IsOriginalOf(s: State, i: int, digest: string) {
    0 <= i < |s.commits| && !s.commits[i].duplicate && s.commits[i].record.contentHash == digest
  }

  predicate HasOriginal(s: State, digest: string) { exists i :: 0 <= i < |s.commits| && IsOriginalOf(s, i, digest) }

  /** A digest that was stored at all was stored as an original exactly once, the lock names
      that record, and every duplicate points at it. */
  ghost predicate OneOriginalEach(s: State, lib: Library) {
    && Represents(s.items, s.model, lib) && Coherent(s.model, lib)
    && (forall i :: 0 <= i < |s.commits| ==>
          GoodCommit(s.model, s.commits[i]) && HasOriginal(s, s.commits[i].record.contentHash))
    && (forall d, i, j :: IsOriginalOf(s, i, d) && IsOriginalOf(s, j, d) ==> i == j)
  }

  /** Over every run of any number of callers. */
  lemma EveryRun(s: State, lib: Library, steps: seq<Step>)
    requires lib.Lawful() && Initial(s, lib)
    ensures OneOriginalEach(Run(s, lib, steps), lib)
  {
    assert Coherent(s.model, lib) && OneOriginal(s);
    RunKeepsInv(s, lib, steps);
    var t := Run(s, lib, steps);
    forall i | 0 <= i < |t.commits| ensures HasOriginal(t, t.commits[i].record.contentHash) {
      var d := t.commits[i].record.contentHash;
      assert GoodCommit(t.model, t.commits[i]);
      var j :| 0 <= j < |t.commits| && !t.commits[j].duplicate && t.commits[j].record.contentHash == d;
      assert IsOriginalOf(t, j, d);
    }
  }

  predicate StoredAtAll(s: State, digest: string) {
    exists i :: 0 <= i < |s.commits| && s.commits[i].record.contentHash == digest
  }

  /** The answers callers got: at most one call per digest was told that its content was new,
      and exactly one if no committed answer was lost on the way back. */
  lemma AnsweredNewOnce(s: State, lib: Library, steps: seq<Step>, digest: string)
    requires lib.Lawful() && Initial(s, lib)
    ensures var t := Run(s, lib, steps);
      var told := set i | 0 <= i < |t.commits| && IsOriginalOf(t, i, digest) && t.commits[i].reported;
      && |told| <= 1
      && (StoredAtAll(t, digest) && (forall i :: 0 <= i < |t.commits| ==> t.commits[i].reported) ==> |told| == 1)
  {
    EveryRun(s, lib, steps);
    var t := Run(s, lib, steps);
    var told := set i | 0 <= i < |t.commits| && IsOriginalOf(t, i, digest) && t.commits[i].reported;
    if i :| i in told {
      assert told == {i};
    }
    if StoredAtAll(t, digest) {
      var j :| 0 <= j < |t.commits| && IsOriginalOf(t, j, digest);
      assert t.commits[j].reported ==> j in told;
    }
  }
}
