/** Stores that commit although their source is gone: when that happens, and a run in which it
    does. */
module StoreRaces {
  import opened Wrappers
  import opened DynamoTable
  import opened EvidenceModel
  import opened EvidenceTable
  import opened EvidenceConcurrency

  // ---- When a store commits without its source ---------------------------------------------

  predicate Commits(s: State, t: State) { |t.commits| > |s.commits| }

  /** The step from `s` to `t` stores a record whose source does not exist. */
  predicate StoresSourceless(s: State, t: State) {
    Commits(s, t) && !HasSource(s.items, t.commits[|s.commits|].record.sourceId)
  }

  /** A transaction after a lost race, of a new record whose source has gone. */
  predicate LateAndSourceless(s: State, step: Step) {
    step.TransactsLate? &&
    (var p := At(s, step.caller);
     p.Late? && p.id !in s.model.entries && !HasSource(s.items, p.draft.sourceId))
  }

  lemma FirstTransactionHasSource(s: State, lib: Library, c: nat, reported: bool)
    requires lib.Lawful() && Inv(s, lib)
    ensures !StoresSourceless(s, Do(s, lib, Transacts(c, reported)))
  {
    var p := At(s, c);
    assert GoodPhase(s.model, lib, p);
    if p.Decided? {
      if p.canonical.Some? {
        DuplicateJudged(s.items, s.model, lib, FirstRecord(p, lib), p.canonical.value, true);
      } else {
        OriginalJudged(s.items, s.model, lib, FirstRecord(p, lib), ChunksFor(p, lib));
      }
    }
  }

  lemma LateJudged(s: State, lib: Library, p: Phase)
    requires Inv(s, lib) && p.Late?
    ensures Judge(s.items, LateActions(p, lib)) == if p.id in s.model.entries then Cancelled else Committed
  {
    DuplicateJudged(s.items, s.model, lib, Duplicate(p.draft, p.id, p.digest, p.winner), p.winner, false);
  }

  lemma LateEffect(s: State, lib: Library, c: nat, reported: bool)
    requires At(s, c).Late?
    ensures var p, t := At(s, c), Do(s, lib, TransactsLate(c, reported));
      && (Commits(s, t) <==> Judge(s.items, LateActions(p, lib)) == Committed)
      && (Commits(s, t) ==> t.commits[|s.commits|].record.sourceId == p.draft.sourceId)
  {
  }

  lemma LateTransaction(s: State, lib: Library, c: nat, reported: bool)
    requires lib.Lawful() && Inv(s, lib)
    ensures StoresSourceless(s, Do(s, lib, TransactsLate(c, reported))) <==> LateAndSourceless(s, TransactsLate(c, reported))
  {
    if At(s, c).Late? {
      LateJudged(s, lib, At(s, c));
      LateEffect(s, lib, c, reported);
    }
  }

  /** A record is stored without its source by a late transaction, and by nothing else. */
  lemma SourcelessIff(s: State, lib: Library, step: Step)
    requires lib.Lawful() && Inv(s, lib)
    ensures StoresSourceless(s, Do(s, lib, step)) <==> LateAndSourceless(s, step)
  {
    match step
    case Transacts(c, reported) => FirstTransactionHasSource(s, lib, c, reported);
    case TransactsLate(c, reported) => LateTransaction(s, lib, c, reported);
    case _ =>
  }

  // ---- A run in which it happens ------------------------------------------------------------

  lemma {:induction false} RunConcat(s: State, lib: Library, first: seq<Step>, more: seq<Step>)
    ensures EvidenceConcurrency.Run(s, lib, first + more)
         == EvidenceConcurrency.Run(EvidenceConcurrency.Run(s, lib, first), lib, more)
    decreases |first|
  {
    if first == [] {
      assert first + more == more;
    } else {
      assert (first + more)[1..] == first[1..] + more;
      RunConcat(Do(s, lib, first[0]), lib, first[1..], more);
    }
  }

  lemma RunThen(s: State, lib: Library, steps: seq<Step>, last: Step)
    ensures EvidenceConcurrency.Run(s, lib, steps + [last]) == Do(EvidenceConcurrency.Run(s, lib, steps), lib, last)
  {
    var t := EvidenceConcurrency.Run(s, lib, steps);
    RunConcat(s, lib, steps, [last]);
    assert EvidenceConcurrency.Run(Do(t, lib, last), lib, []) == Do(t, lib, last);
  }

  /** Text that can be stored and read again. */
  predicate Storable(v: Draft, lib: Library) {
    && v.content.Some? && v.reference.None? && Digest(v, lib).Some?
    && lib.split(Normalized(v, lib).value).Success?
  }

  /** Two callers are about to store the same text, and neither has seen a lock. */
  ghost predicate Racing(s: State, lib: Library, v: Draft, a: string, b: string) {
    && Storable(v, lib) && Inv(s, lib) && s.model == Model(map[], map[]) && s.commits == [] && a != b
    && HasSource(s.items, v.sourceId)
    && At(s, 1) == Decided(v, a, Digest(v, lib).value, None) && At(s, 2) == Decided(v, b, Digest(v, lib).value, None)
  }

  /** A caller decides that its text is new. */
  lemma Deciding(s: State, lib: Library, c: nat, v: Draft, id: string) returns (steps: seq<Step>)
    requires lib.Lawful() && Storable(v, lib) && Inv(s, lib) && HasSource(s.items, v.sourceId)
    requires s.model == Model(map[], map[]) && At(s, c) == Idle
    ensures EvidenceConcurrency.Run(s, lib, steps) == Move(s, c, Decided(v, id, Digest(v, lib).value, None))
  {
    var d := Digest(v, lib).value;
    var started, seen, decided := Started(v, id, d), SourceSeen(v, id, d), Decided(v, id, d, None);
    steps := [Begin(c, v, id), ReadsSource(c), ReadsLock(c)];
    LockHolderHolds(s, lib, d);
    MoveAgain(s, c, started, seen);
    MoveAgain(s, c, seen, decided);
    assert LockHolder(Move(s, c, seen), d) == LockHolder(s, d);
    assert Do(s, lib, steps[0]) == Move(s, c, started);
    assert Do(Move(s, c, started), lib, steps[1]) == Move(s, c, seen);
    assert Do(Move(s, c, seen), lib, steps[2]) == Move(s, c, decided);
    ThreeSteps(s, lib, steps);
  }

  /** The first one commits, and the source is deleted before the second tries. */
  ghost predicate Beaten(s: State, lib: Library, v: Draft, a: string, b: string) {
    && Storable(v, lib) && Inv(s, lib) && |s.commits| == 1 && !HasSource(s.items, v.sourceId)
    && s.model == Add(Model(map[], map[]), Original(v, a, Digest(v, lib).value, lib)) && a != b
  }

  lemma NewJudged(s: State, lib: Library, c: nat)
    requires lib.Lawful() && Inv(s, lib) && At(s, c).Decided? && At(s, c).canonical.None?
    ensures var p := At(s, c);
      Judge(s.items, FirstActions(p, lib))
        == if HasSource(s.items, p.draft.sourceId) && p.digest !in s.model.locks && p.id !in s.model.entries
           then Committed else Cancelled
  {
    var p := At(s, c);
    assert GoodPhase(s.model, lib, p);
    OriginalJudged(s.items, s.model, lib, FirstRecord(p, lib), ChunksFor(p, lib));
  }

  lemma FirstCommits(s: State, lib: Library, v: Draft, a: string, b: string)
    requires lib.Lawful() && Racing(s, lib, v, a, b)
    ensures var t := Do(s, lib, Transacts(1, true));
      && Inv(t, lib) && |t.commits| == 1 && At(t, 2) == At(s, 2)
      && t.model == Add(s.model, Original(v, a, Digest(v, lib).value, lib))
  {
    NewJudged(s, lib, 1);
    TransactsKeeps(s, lib, 1, true);
  }

  lemma SourceGoes(s: State, lib: Library, source: string)
    requires lib.Lawful() && Inv(s, lib)
    ensures var t := Do(s, lib, OthersWrite(s.items - {SourceKey(source)}));
      Inv(t, lib) && t == s.(items := t.items) && !HasSource(t.items, source)
  {
    var after := s.items - {SourceKey(source)};
    forall k: Key | Owned(k.pk) ensures Lookup(after, k) == Lookup(s.items, k) {}
    DoKeepsInv(s, lib, OthersWrite(after));
  }

  lemma FirstWins(s: State, lib: Library, v: Draft, a: string, b: string) returns (first: Step, second: Step)
    requires lib.Lawful() && Racing(s, lib, v, a, b)
    ensures var t := Do(Do(s, lib, first), lib, second);
      Beaten(t, lib, v, a, b) && At(t, 2) == At(s, 2)
  {
    first := Transacts(1, true);
    var t := Do(s, lib, first);
    FirstCommits(s, lib, v, a, b);
    second := OthersWrite(t.items - {SourceKey(v.sourceId)});
    SourceGoes(t, lib, v.sourceId);
  }

  lemma SecondIsRefused(s: State, lib: Library, v: Draft, a: string, b: string)
    requires lib.Lawful() && Beaten(s, lib, v, a, b) && At(s, 2) == Decided(v, b, Digest(v, lib).value, None)
    ensures Do(s, lib, Transacts(2, true)) == Move(s, 2, LostRace(v, b, Digest(v, lib).value))
  {
    NewJudged(s, lib, 2);
  }

  lemma FindsTheLock(s: State, lib: Library, v: Draft, a: string, b: string)
    requires lib.Lawful() && Beaten(s, lib, v, a, b)
    ensures LockHolder(s, Digest(v, lib).value) == Some(a)
  {
    LockHolderHolds(s, lib, Digest(v, lib).value);
  }

  lemma FindsTheWinner(s: State, lib: Library, v: Draft, a: string, b: string)
    requires lib.Lawful() && Beaten(s, lib, v, a, b)
    ensures Fetch(s.items, a, lib).Present?
  {
    FetchReads(s.items, s.model, lib, a);
  }

  lemma MoveAgain(s: State, c: nat, p: Phase, q: Phase)
    ensures Move(Move(s, c, p), c, q) == Move(s, c, q) && At(Move(s, c, p), c) == p
  {
    assert s.callers[c := p][c := q] == s.callers[c := q];
  }

  lemma LookingUp(s: State, lib: Library, v: Draft, d: string, a: string, b: string) returns (steps: seq<Step>)
    requires Do(s, lib, Transacts(2, true)) == Move(s, 2, LostRace(v, b, d))
    requires LockHolder(s, d) == Some(a) && Fetch(s.items, a, lib).Present?
    ensures EvidenceConcurrency.Run(s, lib, steps) == Move(s, 2, Late(v, b, d, a))
  {
    var lost, seen, late := LostRace(v, b, d), WinnerSeen(v, b, d, a), Late(v, b, d, a);
    steps := [Transacts(2, true), ReadsWinner(2), ReadsWinnerRecord(2)];
    MoveAgain(s, 2, lost, seen);
    MoveAgain(s, 2, seen, late);
    assert LockHolder(Move(s, 2, lost), d) == LockHolder(s, d);
    assert Do(Move(s, 2, lost), lib, steps[1]) == Move(s, 2, seen);
    assert Do(Move(s, 2, seen), lib, steps[2]) == Move(s, 2, late);
    ThreeSteps(s, lib, steps);
  }

  /** The second one is refused, finds the winner, and is about to be stored as its duplicate. */
  lemma ThenLooksUp(s: State, lib: Library, v: Draft, a: string, b: string) returns (steps: seq<Step>)
    requires lib.Lawful() && Beaten(s, lib, v, a, b) && At(s, 2) == Decided(v, b, Digest(v, lib).value, None)
    ensures EvidenceConcurrency.Run(s, lib, steps) == Move(s, 2, Late(v, b, Digest(v, lib).value, a))
  {
    SecondIsRefused(s, lib, v, a, b);
    FindsTheLock(s, lib, v, a, b);
    FindsTheWinner(s, lib, v, a, b);
    steps := LookingUp(s, lib, v, Digest(v, lib).value, a, b);
  }

  lemma ThreeSteps(s: State, lib: Library, steps: seq<Step>)
    requires |steps| == 3
    ensures EvidenceConcurrency.Run(s, lib, steps) == Do(Do(Do(s, lib, steps[0]), lib, steps[1]), lib, steps[2])
  {
    RunThen(s, lib, [], steps[0]);
    RunThen(s, lib, [steps[0]], steps[1]);
    RunThen(s, lib, [steps[0], steps[1]], steps[2]);
    assert [] + [steps[0]] == [steps[0]] && [steps[0]] + [steps[1]] == [steps[0], steps[1]];
    assert [steps[0], steps[1]] + [steps[2]] == steps;
  }

  lemma BothDecide(s: State, lib: Library, v: Draft, a: string, b: string) returns (steps: seq<Step>)
    requires lib.Lawful() && Initial(s, lib) && Storable(v, lib) && HasSource(s.items, v.sourceId) && a != b
    ensures Racing(EvidenceConcurrency.Run(s, lib, steps), lib, v, a, b)
  {
    assert Inv(s, lib) by { InitialIsGood(s, lib); }
    var one := Deciding(s, lib, 1, v, a);
    var t := EvidenceConcurrency.Run(s, lib, one);
    RunKeepsInv(s, lib, one);
    var two := Deciding(t, lib, 2, v, b);
    RunKeepsInv(t, lib, two);
    RunConcat(s, lib, one, two);
    steps := one + two;
  }

  lemma InitialIsGood(s: State, lib: Library)
    requires Initial(s, lib)
    ensures Inv(s, lib)
  {
    assert Coherent(s.model, lib) && OneOriginal(s);
  }

  /** The race can end so: the second of two concurrent stores of the same text is committed as
      a duplicate although their source was deleted meanwhile. */
  lemma SourcelessDuplicate(s: State, lib: Library, v: Draft, a: string, b: string) returns (steps: seq<Step>, last: Step)
    requires lib.Lawful() && Initial(s, lib) && Storable(v, lib) && HasSource(s.items, v.sourceId) && a != b
    ensures var t := EvidenceConcurrency.Run(s, lib, steps);
      StoresSourceless(t, Do(t, lib, last)) && EvidenceConcurrency.Run(s, lib, steps + [last]) == Do(t, lib, last)
  {
    var race := BothDecide(s, lib, v, a, b);
    var r := EvidenceConcurrency.Run(s, lib, race);
    var first, second := FirstWins(r, lib, v, a, b);
    RunThen(s, lib, race, first);
    RunThen(s, lib, race + [first], second);
    var beaten := race + [first] + [second];
    var t := EvidenceConcurrency.Run(s, lib, beaten);
    var looking := ThenLooksUp(t, lib, v, a, b);
    RunConcat(s, lib, beaten, looking);
    steps := beaten + looking;
    last := TransactsLate(2, true);
    RunThen(s, lib, steps, last);
    RunKeepsInv(t, lib, looking);
    LateTransaction(EvidenceConcurrency.Run(s, lib, steps), lib, 2, true);
  }
}
