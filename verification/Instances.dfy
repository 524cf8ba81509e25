/** The concurrency theorems for the services as deployed: from an empty table, with the key
    formats, the chunking and the text rules that the code has. */
module Instances {
  import opened Wrappers
  import opened PrefixCode
  import opened DynamoTable
  import Json
  import PlanningStore
  import PlanningConcurrency
  import Chunking
  import EvidenceModel
  import EvidenceRepository
  import EvidenceRuns
  import Text
  import Utf8
  import EvidenceConcurrency

  /** Whatever the hash function and the JSON writer do, interleaved stores into an empty
      library keep one original per digest. */
  lemma StoresFromEmpty(sha256: seq<Byte> -> string, dumps: Json.Json -> EvidenceModel.Text,
                        steps: seq<EvidenceConcurrency.Step>)
    ensures var lib := EvidenceRepository.LibraryOf(sha256, dumps);
      var start := EvidenceConcurrency.State(map[], EvidenceModel.Model(map[], map[]), map[], []);
      EvidenceConcurrency.OneOriginalEach(EvidenceConcurrency.Run(start, lib, steps), lib)
  {
    var lib := EvidenceRepository.LibraryOf(sha256, dumps);
    EvidenceRepository.LibraryIsLawful(sha256, dumps);
    var start := EvidenceConcurrency.State(map[], EvidenceModel.Model(map[], map[]), map[], []);
    assert EvidenceConcurrency.Initial(start, lib);
    EvidenceConcurrency.EveryRun(start, lib, steps);
  }

  /** If the JSON text of a snapshot reads back, interleaved callers from an empty table lose no
      guarded update, and `get` returns the last commit. */
  lemma SavesFromEmpty(encode: PlanningStore.Snapshot -> seq<Byte>, decode: seq<Byte> -> Option<PlanningStore.Snapshot>,
                       id: string, steps: seq<PlanningConcurrency.Step>)
    requires forall s :: decode(encode(s)) == Some(s) && encode(s) != []
    ensures var codec := PlanningStore.JsonCodec(encode, decode);
      var end := PlanningConcurrency.Run(PlanningConcurrency.State(map[], map[], []), id, codec, steps);
      && PlanningConcurrency.NoLostUpdate(end)
      && PlanningStore.Load(end.items, id, codec) == PlanningConcurrency.Current(end)
  {
    var codec := PlanningStore.JsonCodec(encode, decode);
    PlanningStore.JsonCodecIsLawful(encode, decode);
    var start := PlanningConcurrency.State(map[], map[], []);
    assert PlanningConcurrency.Initial(start, id, codec);
    PlanningConcurrency.EveryRun(start, id, codec, steps);
  }

  // ---- Text evidence, word by word ---------------------------------------------------------

  /** A hash function without collisions. */
  ghost predicate CollisionFree(sha256: seq<Byte> -> string) {
    forall a: seq<Byte>, b: seq<Byte> :: sha256(a) == sha256(b) ==> a == b
  }

  /** The text that a draft is kept as, and the bytes its digest is taken of: its words, with one
      blank between neighbours, in UTF-8. */
  lemma TextAndDigest(sha256: seq<Byte> -> string, dumps: Json.Json -> EvidenceModel.Text, v: EvidenceModel.Draft)
    requires v.content.Some?
    ensures var lib, text := EvidenceRepository.LibraryOf(sha256, dumps), Text.Join(Text.Words(v.content.value));
      && EvidenceModel.Normalized(v, lib) == Some(text)
      && Utf8.UTF8.Lawful()
      && EvidenceModel.Digest(v, lib)
         == if Chunking.Encodable(text) then Some(sha256(Encode(Utf8.UTF8, Chunking.Scalars(text)))) else None
  {
    Text.NormalizeJoinsWords(v.content.value);
    Utf8.Utf8IsLawful();
  }

  lemma DigestsTellTextsApart(sha256: seq<Byte> -> string, dumps: Json.Json -> EvidenceModel.Text)
    requires CollisionFree(sha256)
    ensures EvidenceRuns.Injective(EvidenceRepository.LibraryOf(sha256, dumps))
  {
    Utf8.Utf8IsLawful();
    forall a: EvidenceModel.Text, b: EvidenceModel.Text
      | Chunking.Encodable(a) && Chunking.Encodable(b)
        && Encode(Utf8.UTF8, Chunking.Scalars(a)) == Encode(Utf8.UTF8, Chunking.Scalars(b))
      ensures a == b
    {
      DecodeEncode(Utf8.UTF8, Chunking.Scalars(a));
      DecodeEncode(Utf8.UTF8, Chunking.Scalars(b));
      assert Chunking.Scalars(a) == a && Chunking.Scalars(b) == b;
    }
  }

  /** Two texts stored one after the other share their canonical record exactly if they consist of the
      same words. */
  lemma SameWordsSameRecord(sha256: seq<Byte> -> string, dumps: Json.Json -> EvidenceModel.Text, m: EvidenceModel.Model,
                            v: EvidenceModel.Draft, id: string, w: EvidenceModel.Draft, other: string)
    requires CollisionFree(sha256) && v.content.Some? && w.content.Some?
    requires var lib := EvidenceRepository.LibraryOf(sha256, dumps);
      && EvidenceModel.Coherent(m, lib) && EvidenceModel.StoreAnswer(m, v, id, true, lib).Success?
      && EvidenceModel.StoreAnswer(EvidenceModel.AfterStore(m, v, id, true, lib), w, other, true, lib).Success?
    ensures var lib := EvidenceRepository.LibraryOf(sha256, dumps);
      var first := EvidenceModel.StoreAnswer(m, v, id, true, lib).value.0;
      var second := EvidenceModel.StoreAnswer(EvidenceModel.AfterStore(m, v, id, true, lib), w, other, true, lib).value.0;
      EvidenceRuns.HolderOf(first) == EvidenceRuns.HolderOf(second) <==> Text.Words(v.content.value) == Text.Words(w.content.value)
  {
    var lib := EvidenceRepository.LibraryOf(sha256, dumps);
    DigestsTellTextsApart(sha256, dumps);
    EvidenceRuns.SameHolderIff(m, v, id, w, other, lib);
    Text.SameNormalFormIffSameWords(v.content.value, w.content.value);
  }

  /** And an original stored without a reference of its own reads as those words. */
  lemma WordsReadBack(sha256: seq<Byte> -> string, dumps: Json.Json -> EvidenceModel.Text, m: EvidenceModel.Model,
                      v: EvidenceModel.Draft, id: string)
    requires v.content.Some? && v.reference.None?
    requires var lib := EvidenceRepository.LibraryOf(sha256, dumps);
      EvidenceModel.StoreAnswer(m, v, id, true, lib).Success? && !EvidenceModel.StoreAnswer(m, v, id, true, lib).value.1
    ensures var found := EvidenceModel.Read(EvidenceModel.AfterStore(m, v, id, true, EvidenceRepository.LibraryOf(sha256, dumps)), id);
      found.Present? && found.value.content == Some(Text.Join(Text.Words(v.content.value)))
  {
    EvidenceRepository.LibraryIsLawful(sha256, dumps);
    EvidenceModel.StoreThenGet(m, v, id, EvidenceRepository.LibraryOf(sha256, dumps));
    TextAndDigest(sha256, dumps, v);
  }
}
