# Verification of the planning and evidence service

This project is a Dafny model of the parts of the server where correctness is hardest to see by
reading, with machine-checked proofs about them. `dafny verify dfyconfig.toml` checks all of it.

| area | modules | what is proved |
|---|---|---|
| text and tokens | `Wrappers`, `Sets`, `Json`, `PrefixCode`, `Utf8`, `Chunking`, `Text`, `Base64Url`, `Tokens`, `Numerals`, `Offsets` | chunking and its back-off, normalisation, base64url, tagged continuation tokens, page offsets |
| pagination | `Paging` | the offset-over-cursor loop against slices of the flat list |
| DynamoDB | `DynamoTable` | partitions, prefix queries, conditional transactions |
| planning snapshots | `PlanningStore`, `PlanningConcurrency`, `PlanningSystem` | `save` and `get` refine a versioned register, alone and interleaved; interleaved handlers commit a run of the workflow |
| evidence | `EvidenceModel`, `EvidenceRuns`, `EvidenceTable`, `EvidenceRepository`, `EvidenceConcurrency`, `StoreRaces` | deduplication, reference indexes, protected deletion and batch cleanup, alone and with interleaved stores |
| planning cycle | `PlanningTypes`, `Scenario`, `ScenarioReview`, `Ranking`, `Workflow`, `WorkflowRuns`, `WorkflowStatus`, `Provenance`, `Handlers`, `Decisions`, `Advance` | composition, ranking, every run of the API calls, where results come from, convergence of the automatic advance |
| crawler | `Crawler` | the bounded breadth-first crawl |
| deployment | `Instances` | the two concurrency theorems, and what becomes of a text, with nothing left abstract but hashing and JSON |
| client schemas | `Schema`, `SchemaAdmission`, `SchemaPossible`, `SchemaBounds`, `Validation`, `StubMapping` | admission, validation, generated values |

Objects the source updates in place are classes: the table, the two repositories, the crawl. Loops
are loops, each proved against a specification function or an abstract state, and the lemmas are
about those. The gateway is an arbitrary sequence of replies together with a log of what was
submitted to it; concurrent callers are a state machine whose steps are the single reads, queries
and transactions. The evidence proofs go in three layers: a model of records and locks, an exact
description of the items that represent it, and repository methods that keep the two in step.

## What the proofs turned up

Where the code does less than one would expect, the exact condition is proved, together with the
case that fails:

- Text evidence stored with a reference of its own is chunked, but `get` never reads the chunks
  back (`EvidenceModel.StoreThenGet`).
- Evidence whose only content is an empty reference is stored and cannot be read again, and every
  later store of the same digest fails, whatever happens in between
  (`EvidenceRuns.UnreadableBlocksItsDigest`, `EvidenceRuns.UnreadableIff`).
- The version guard is complete where it is used, and needed: `create_cycle` saves without an
  expected version and can overwrite a cycle another caller has just saved
  (`PlanningConcurrency.EveryRun`, `PlanningConcurrency.UnguardedSaveLosesUpdate`).
- The identifier of a cycle is a hash of its generated scenarios. Creating the same cycle again
  replaces it by a fresh draft even after it was submitted or decided, and its baseline is then
  submitted again (`WorkflowStatus.CreatingAgainSubmitsTwice`). Frozen scenarios and standing
  decisions are promised up to the next such call only.
- When the gateway accepts the baseline and its answer is lost, the next call submits it again;
  only the client's idempotency key stands in between (`WorkflowRuns.LostAnswerSubmitsTwice`).
- POST /rank on a cycle whose baseline has no result, be it a draft, running or failed, makes the
  cycle EVALUATED. Every other successful call keeps a true status true (`WorkflowStatus.HonestIff`,
  `WorkflowStatus.RankedDraft`, `WorkflowStatus.RankedFailure`).
- Calling `rank` again recommends one more eligible plan each time
  (`Ranking.RankingAgainRecommendsMore`); the automatic advance does not.
- A plan submitted again after its evaluation is never polled again: it stays RUNNING, and as long
  as it does the automatic advance ranks nothing (`Advance.StuckPlansStayRunning`,
  `Advance.ResubmittedPlanIsStuck`).
- The deletion impact reports raw content as present after it was removed
  (`EvidenceModel.RemovedContentCountsAsPresent`).
- A cycle without generated scenarios is reviewed against its own last composition, so what one
  review drops no later review can select (`Scenario.NarrowReviewLosesDisruptions`). `create_draft` never
  stores such a cycle, so this concerns older stored data only.
- Admission does not bound payloads of schemas that omit `type` or `items`
  (`Schema.UntypedSchemaBoundsNothing`, `Schema.ArrayWithoutItemsBoundsNothing`), although its
  documentation says that unbounded collections are rejected. Nor does its limit of 12 levels reach
  into enumerations (`SchemaBounds.EnumIsDeep`). Exactly which schemas bound the size of what they
  accept is `SchemaBounds.BoundedIff`, and which bound its depth `SchemaBounds.DepthIff`.
- A dictionary key value that looks like a tagged decimal or byte string does not survive a
  continuation token (`Tokens.LooksTaggedIsLost`).
- A duplicate stored after a lost race does not check again that its source still exists; no other
  store can commit without it (`StoreRaces.SourcelessIff`, `StoreRaces.SourcelessDuplicate`).
- In the crawl the second check for seen URLs can never succeed (`Crawler.Crawl.TakeNext`).

## Model

| member | source | states |
|---|---|---|
| `Utf8.Utf8IsLawful` | server/app/repositories/dynamodb/codec.py:144-150 | Well-formed UTF-8 (section 3 of RFC 3629) is a prefix code: decoding inverts encoding, nothing but an encoding decodes, no proper prefix of a code word decodes. This is what makes the back-off of the chunk loop sound |
| `PrefixCode.PrefixDecodesAtBoundary` | server/app/repositories/dynamodb/codec.py:145-150 | A prefix of an encoded text decodes if and only if it stops between two characters |
| `Chunking.BackOff` | server/app/repositories/dynamodb/codec.py:144-150 | The inner loop stops after at most three steps, never at `offset`, and the window it leaves is the longest one in the limit that decodes |
| `Chunking.ChunkContent` | server/app/repositories/dynamodb/codec.py:137-153 | The whole method: text with surrogates and text over 256 KiB are refused, every other text gives its greedy chunking and the hash of its bytes |
| `Chunking.ChunksStandAlone` | server/app/repositories/dynamodb/codec.py:142-152 | Every chunk is non-empty, at most 64 KiB and valid UTF-8 alone, and every chunk but the last is within three bytes of the limit |
| `Chunking.AtMostFiveChunks` | server/app/repositories/dynamodb/codec.py:139-152 | Accepted content never needs more than five chunk items |
| `Chunking.ReconstructInvertsChunking` | server/app/repositories/dynamodb/codec.py:156-160 | Joining the chunks gives the text back, for every encodable text |
| `Chunking.ReconstructIff` | server/app/repositories/dynamodb/codec.py:156-160 | For any stored chunks at all: reading gives a text if and only if the chunks together are its encoding, and fails if and only if they are the encoding of none |
| `Chunking.Utf8Chunks` | server/app/repositories/dynamodb/codec.py:137-160 | The three statements above for real UTF-8, with no assumption left about the code |
| `Text.NormalizeJoinsWords` | server/app/repositories/dynamodb/evidence.py:15 | Normalising keeps the words of a text in order, one space between neighbours, and nothing else |
| `Text.NormalizeIdempotent` | server/app/repositories/dynamodb/evidence.py:15 | Normalising twice is normalising once, so hashing stored text again gives the stored hash |
| `Text.SameNormalFormIffSameWords` | server/app/repositories/dynamodb/evidence.py:15-18 | Two texts get the same normal form, hence the same digest input, if and only if they consist of the same words |
| `Base64Url.DecodeInvertsEncode` | server/app/repositories/dynamodb/codec.py:58-66 | base64 decoding inverts encoding for every byte string and both alphabets (sections 4 and 5 of RFC 4648) |
| `Base64Url.PaddingRestored` | server/app/repositories/dynamodb/codec.py:58-65 | Stripping `=` loses nothing: the length of what is left tells how much padding to restore (section 3.2 of RFC 4648) |
| `Tokens.ValueRoundTrip` | server/app/repositories/dynamodb/codec.py:90-120 | Tagging a value and reading it back gives the value if and only if it holds no tuple and no dictionary that looks like a tagged decimal or byte string |
| `Tokens.TokenRoundTrip` | server/app/repositories/dynamodb/codec.py:47-87 | An issued token decodes to its key if and only if the query identity is the one it was issued for and the key is representable; under any other query it is refused as invalid |
| `Tokens.IssuedUnpacks` | server/app/repositories/dynamodb/codec.py:52-64 | An issued token holds version 1, its query and the tagged key, and nothing else |
| `Tokens.TokensAreUnambiguous` | server/app/repositories/dynamodb/codec.py:47-87 | No two representable keys share a token, not even across queries |
| `Tokens.NoTokenForNoKey` | server/app/repositories/dynamodb/codec.py:50-51 | No token is issued exactly for a missing or empty key, and no token reads as no key |
| `Tokens.AcceptedIff` | server/app/repositories/dynamodb/codec.py:67-87 | Exactly those tokens are accepted that unpack, within 16 KiB, to a body with its own digest beside it, of the current version, for the query asked, with a dictionary as its key |
| `Tokens.SupportedIff` | server/app/repositories/dynamodb/codec.py:90-106 | Tagging fails exactly on values that hold something of an unsupported kind at any depth |
| `Tokens.IssuedIff` | server/app/repositories/dynamodb/codec.py:47-64 | A token is issued exactly for a key of supported values whose envelope takes at most 16 KiB, and the error says which of the two is missing |
| `Tokens.LooksTaggedIsLost` | server/app/repositories/dynamodb/codec.py:47-120 | The condition is needed: a key with a dictionary whose only key is `$decimal` is read back, through its token, with a decimal in its place |
| `Numerals.PaddedOrder` | server/app/repositories/dynamodb/planning.py:29-30 | Zero-padded numerals compare as strings exactly as the numbers do |
| `Numerals.ValueOfPadded` | server/app/repositories/dynamodb/planning.py:29 | Reading a padded numeral gives the number |
| `Offsets.OffsetRoundTrip` | server/app/repositories/postgres/common.py:14-29 | A PostgreSQL page token decodes to exactly offset + limit |
| `Offsets.OffsetAcceptedIff` | server/app/repositories/postgres/common.py:18-29 | A page token is accepted if and only if its text is `v1:` followed by what `int` reads as a number that is not negative |
| `Offsets.PostgresCodecIsLawful` | server/app/repositories/postgres/common.py:14-29 | The offset codec meets what a paging loop needs of it |
| `Paging.ListEvidence` | server/app/services/evidence_service.py:12-26 | The loop, over any repository that pages: it ends, and returns the window into the first page that reaches beyond the offset |
| `Paging.SliceInFlatList` | server/app/services/evidence_service.py:18-26 | That window is the part of the flat list from `offset` to the end of the page holding `offset` |
| `Paging.SliceOfAnyPaging` | server/app/services/evidence_service.py:18-26 | For every paging the result is a prefix of the wanted slice, empty only beyond the list, and complete if and only if the wanted slice does not cross the end of that page |
| `Paging.PostgresPages` | server/app/repositories/postgres/evidence.py:241-248 | Following the tokens, the PostgreSQL adapter hands out full pages, only the last one shorter |
| `Paging.PostgresSlice` | server/app/repositories/postgres/evidence.py:241-248 | With such pages the result is the wanted slice exactly when the slice ends before the next page border; always when offset + limit is at most 1000 |
| `Paging.ListOverPostgres` | server/app/services/evidence_service.py:12-26 | The loop run over that adapter with its real tokens returns the wanted slice up to 1000 rows deep, and a prefix of it beyond |
| `DynamoTable.PkTextInjective` | server/app/repositories/dynamodb/planning.py:18-30 | No two partitions share a stored key, whatever the identifiers contain |
| `DynamoTable.QueryIs` | server/app/repositories/dynamodb/planning.py:28 | A prefix query gives the matching items, each once, in key order |
| `DynamoTable.RowsCover` | server/app/repositories/dynamodb/planning.py:40 | A query misses no item and invents none |
| `DynamoTable.ApplyEffect` | server/app/repositories/dynamodb/operations.py:115-124 | Each item of a transaction with distinct targets has its effect, whatever the other items do |
| `DynamoTable.AllOrNothing` | server/app/repositories/dynamodb/operations.py:115-124 | A transaction of one to a hundred items with distinct targets, every condition met on the state before, leaves exactly one table: each target holds its own action's outcome and every other key what it held. Otherwise nothing is written |
| `PlanningStore.SectionIndex` | server/app/repositories/dynamodb/planning.py:29-30 | The index read off a section key is the index it was written for |
| `PlanningStore.SectionOrder` | server/app/repositories/dynamodb/planning.py:30 | Section keys sort the way their indexes do, below a million |
| `PlanningStore.JsonCodecIsLawful` | server/app/repositories/dynamodb/planning.py:20 | Cutting the JSON into sections of 60 KiB loses nothing, no section is empty or too big |
| `PlanningStore.SectionCount` | server/app/repositories/dynamodb/planning.py:20 | Every section but the last takes 60 KiB |
| `PlanningStore.RefusedForSize` | server/app/repositories/dynamodb/planning.py:18-21 | A save of the expected version is refused if and only if the JSON text of the new snapshot takes more than 5529600 bytes |
| `PlanningStore.QuerySections` | server/app/repositories/dynamodb/planning.py:28 | Querying a stored snapshot's sections gives them in order, none stale, none missing |
| `PlanningStore.LoadStored` | server/app/repositories/dynamodb/planning.py:37-42 | `get` returns exactly the snapshot that is stored |
| `PlanningStore.SaveTransactionShape` | server/app/repositories/dynamodb/planning.py:29-31 | Growing or shrinking, the transaction names 1 + max(old, new) distinct items, at most 91, and so fits the limit of 100 |
| `PlanningStore.ReplaceStores` | server/app/repositories/dynamodb/planning.py:22-31 | Run on a stored snapshot the transaction commits, afterwards the sections are exactly 0..n-1 of the new snapshot, and no other partition changes |
| `PlanningStore.SaveReplaces` | server/app/repositories/dynamodb/planning.py:17-42 | Seen from outside, the transaction replaces what `get` returns and nothing else |
| `PlanningStore.Repository.Get` | server/app/repositories/dynamodb/planning.py:37-42 | The method returns the stored snapshot |
| `PlanningStore.Repository.Rewrite` | server/app/repositories/dynamodb/planning.py:24-31 | Query, stale keys and one transaction commit the replacement |
| `PlanningStore.Repository.Save` | server/app/repositories/dynamodb/planning.py:17-36 | `save` refines a versioned register: conflict on an unexpected version, refusal above 90 sections, otherwise the next version is stored; on failure nothing changes |
| `PlanningConcurrency.GetSectionsKeeps` | server/app/repositories/dynamodb/planning.py:37-42 | A reader between other callers' steps gets one committed snapshot whole, never a mixture |
| `PlanningConcurrency.CommitIsReplacement` | server/app/repositories/dynamodb/planning.py:24-31 | A transaction that commits replaces the latest snapshot, even if other saves came between this caller's reads |
| `PlanningConcurrency.RunKeepsInv` | server/app/repositories/dynamodb/planning.py:17-42 | The invariant of the interleaved system is kept by every sequence of steps |
| `PlanningConcurrency.EveryRun` | server/app/repositories/dynamodb/planning.py:17-36 | In every interleaving of callers each commit raises the version by one; a save was computed from the commit just before it if and only if it named an expected version or was the first of all; META carries the snapshot's own version, and `get` returns the last commit |
| `PlanningConcurrency.UndisturbedSave` | server/app/repositories/dynamodb/planning.py:17-36 | A save that nobody interrupts succeeds unless its expected version is out of date, so the guard refuses nothing else |
| `PlanningConcurrency.UnguardedSaveLosesUpdate` | server/app/api/planning.py:150-154 | An interleaving of two `create_cycle` calls in which the unguarded save overwrites a commit its caller never saw |
| `PlanningSystem.EveryRunIsSequential` | server/app/repositories/dynamodb/planning.py:17-42 | Whatever callers compute, in every interleaving each guarded commit follows by the rules of its caller from the commit immediately before it, and every other one is a first snapshot |
| `PlanningSystem.CommitsAreARun` | server/app/api/planning.py:150-321 | The commits of any interleaving of the API's handlers are what one sequential run of the workflow stores, call by call |
| `PlanningSystem.EveryCommitIsSound` | server/app/api/planning.py:150-321 | So the workflow invariant and every status but EVALUATED hold true of every snapshot ever committed, under any interleaving; all of their statuses are true if and only if none was committed by ranking before a result |
| `EvidenceModel.OneCanonicalPerDigest` | server/app/repositories/dynamodb/evidence.py:33-67 | In a coherent library one record per digest holds the content, every digest is locked, no duplicate points at a duplicate |
| `EvidenceModel.StoreKeepsCoherent` | server/app/repositories/dynamodb/evidence.py:33-67 | `store` keeps the library coherent: a lock for a digest exactly while its canonical record exists, no dangling duplicate |
| `EvidenceModel.DuplicateIffHeld` | server/app/repositories/dynamodb/evidence.py:36-67 | `store` answers duplicate if and only if a canonical record with that digest exists, and then names it |
| `EvidenceModel.StoreThenGet` | server/app/repositories/dynamodb/evidence.py:19-21 | Storing text and reading it gives the normalised text if and only if the draft brought no reference of its own, other than an empty one or the marker `chunks://content` itself; hashing it again gives the record's hash; a record whose only content is an empty reference cannot be read |
| `EvidenceModel.ArchiveOnce` | server/app/repositories/dynamodb/evidence.py:94-95 | Archiving changes the archived mark of one record and nothing else |
| `EvidenceModel.ArchivesOnlyMark` | server/app/repositories/dynamodb/evidence.py:94-95 | So does any number of archive and restore calls; the last one counts |
| `EvidenceModel.StoreArchiveGet` | server/app/repositories/dynamodb/evidence.py:33-95 | Stored text survives any number of archive and restore calls, with its hash |
| `EvidenceModel.RemoveRawKeepsIdentity` | server/app/repositories/dynamodb/evidence.py:116-118 | Without a legal hold nothing of the content remains, while identity, hash, lock and duplicates stay |
| `EvidenceModel.RemovedContentCountsAsPresent` | server/app/repositories/dynamodb/evidence.py:96-118 | `raw_content_present` stays true after every removal: the reference put in place of the content counts as content |
| `EvidenceModel.DeleteKeepsCoherent` | server/app/repositories/dynamodb/evidence.py:133-142 | Deleting what is unprotected keeps the library coherent |
| `EvidenceModel.DeleteReleasesDigest` | server/app/repositories/dynamodb/evidence.py:133-142 | After the canonical record is deleted the same content is stored afresh as an original |
| `EvidenceModel.DuplicatesAreIndependent` | server/app/repositories/dynamodb/evidence.py:108-112 | Deleting some duplicates changes the deletion impact of no other one |
| `EvidenceModel.CleanupRound` | server/app/repositories/dynamodb/evidence.py:110-112 | In each round the inner delete succeeds exactly when the preview said so |
| `EvidenceModel.CleanupKeepsCoherent` | server/app/repositories/dynamodb/evidence.py:108-115 | Batch cleanup keeps the library coherent |
| `EvidenceModel.CleanupDeletesCanonical` | server/app/repositories/dynamodb/evidence.py:113-115 | The canonical record goes if and only if that was asked for, nothing else protects it, and every duplicate was deletable |
| `EvidenceModel.AnyMixOfCalls` | server/app/repositories/dynamodb/evidence.py:33-142 | Any sequence of store, archive, raw removal, delete and cleanup calls keeps the library coherent |
| `EvidenceRuns.BrokenIff` | server/app/repositories/dynamodb/evidence.py:33-142 | Over any run exactly the records stored with an empty reference only cannot be read, and they never become readable or go away |
| `EvidenceRuns.UnreadableBlocksItsDigest` | server/app/repositories/dynamodb/evidence.py:37 | Whatever is called in between, every later store with the digest of such a record fails |
| `EvidenceRuns.UnreadableIff` | server/app/repositories/dynamodb/evidence.py:33-67 | Over any run from an empty library a store fails as unreadable if and only if nothing else is wrong with it and its digest is held by a record stored with an empty reference only |
| `EvidenceRuns.CallKeepsText` | server/app/repositories/dynamodb/evidence.py:33-142 | As long as a record exists, only a raw removal that is not refused takes its text away |
| `EvidenceRuns.TextFoundIff` | server/app/repositories/dynamodb/evidence.py:33-142 | Over any run, with a hash that tells texts apart, the text of a stored draft can be read at the original that holds its digest if and only if that original was stored as text without a reference of its own and the text was not removed |
| `EvidenceRuns.StoreKeepsFields` | server/app/repositories/dynamodb/evidence.py:33-67 | A record just stored is read with the source, legal hold and details of its draft, unarchived; an original that can be read has the draft's structured content and its reference, but for the chunk marker |
| `EvidenceRuns.StoredFieldsRead` | server/app/repositories/dynamodb/evidence.py:33-76 | The same through the items of the table |
| `EvidenceRuns.HoldStands` | server/app/repositories/dynamodb/evidence.py:94-142 | Over any run of calls a record with a legal hold stays, with its content, whatever is deleted, removed or cleaned up |
| `EvidenceRuns.StoredHoldStands` | server/app/repositories/dynamodb/evidence.py:33-142 | So does every draft stored with a legal hold, from its store on |
| `EvidenceRuns.DeletedIff` | server/app/repositories/dynamodb/evidence.py:96-142 | A record goes by `delete` if and only if it can be read and has no legal hold, no signal and no duplicate; no other record goes |
| `EvidenceRuns.CleanedIff` | server/app/repositories/dynamodb/evidence.py:108-115 | By a cleanup go, but for the canonical record itself, exactly the duplicates of a readable canonical record without legal hold and signals |
| `EvidenceRuns.LinkedStands` | server/app/repositories/dynamodb/evidence.py:94-142 | Over any run of calls a record that signals were drawn from stays the record it is |
| `EvidenceRuns.ImpactAfterStore` | server/app/repositories/dynamodb/evidence.py:33-99 | The deletion impact of a record just stored: it can be deleted exactly if it has no legal hold and no signal |
| `EvidenceRuns.RawAfterStore` | server/app/repositories/dynamodb/evidence.py:33-99 | and has raw content exactly if it is an original with a text that is not blank, structured content that counts as true, or a reference of its own |
| `EvidenceRuns.SameHolderIff` | server/app/repositories/dynamodb/evidence.py:16-67 | With a hash that tells texts apart, two drafts get the same canonical record if and only if they stand for the same content: text before structured content before reference, text by its words |
| `EvidenceTable.FetchReads` | server/app/repositories/dynamodb/evidence.py:68-76 | Reading the items gives what the model says, the content chunks in order |
| `EvidenceTable.DuplicatesCounted` | server/app/repositories/dynamodb/evidence.py:87-97 | The count of reference items is positive exactly when a duplicate exists |
| `EvidenceTable.DuplicatesListed` | server/app/repositories/dynamodb/evidence.py:105-106 | The reference items of a record list its duplicates, each once |
| `EvidenceTable.OriginalJudged` | server/app/repositories/dynamodb/evidence.py:48-55 | The transaction for an original commits if and only if the source exists, the digest is unlocked and the identifier is new |
| `EvidenceTable.OriginalStored` | server/app/repositories/dynamodb/evidence.py:48-55 | Its effect on the items is the model's new original with lock, reference and chunks, and nothing elsewhere |
| `EvidenceTable.DuplicateJudged` | server/app/repositories/dynamodb/evidence.py:41-66 | The transaction for a duplicate commits if and only if the identifier is new and, unless it follows a lost race, the source exists |
| `EvidenceTable.DuplicateStored` | server/app/repositories/dynamodb/evidence.py:41-66 | Its effect on the items is the model's new duplicate with both references |
| `EvidenceTable.ContentKeysGone` | server/app/repositories/dynamodb/evidence.py:127-132 | Deleting the queried content keys removes the content items of one record and nothing else |
| `EvidenceTable.RawRemoved` | server/app/repositories/dynamodb/evidence.py:116-118 | Raw removal on the items is raw removal in the model |
| `EvidenceTable.EvidenceDeleted` | server/app/repositories/dynamodb/evidence.py:133-142 | Delete on the items is delete in the model: lock or duplicate reference, source reference, META and content all go |
| `EvidenceRepository.LibraryIsLawful` | server/app/repositories/dynamodb/evidence.py:10-21 | The real normaliser, chunker and key formats meet every law the evidence proofs use; only the hash and the JSON writer are arbitrary |
| `EvidenceRepository.Repository.Get` | server/app/repositories/dynamodb/evidence.py:68-76 | The method returns what the model says |
| `EvidenceRepository.Repository.Store` | server/app/repositories/dynamodb/evidence.py:33-67 | Answer and new state are those of the model, and the items again represent it exactly |
| `EvidenceRepository.Repository.StoreDuplicate` | server/app/repositories/dynamodb/evidence.py:40-46 | Conflict on a taken identifier, otherwise the duplicate is added |
| `EvidenceRepository.Repository.StoreOriginal` | server/app/repositories/dynamodb/evidence.py:47-67 | Conflict on a taken identifier, otherwise the original is added with its lock and chunks |
| `EvidenceRepository.Repository.SetArchived` | server/app/repositories/dynamodb/evidence.py:94-95 | Refines the model's archive step; answers the record as it then reads |
| `EvidenceRepository.Repository.DeletionImpact` | server/app/repositories/dynamodb/evidence.py:96-99 | Answers the model's impact: signals, duplicates, legal hold, raw content present |
| `EvidenceRepository.Repository.DeleteChunks` | server/app/repositories/dynamodb/evidence.py:127-132 | Removes the content items of one record and nothing else |
| `EvidenceRepository.Repository.RemoveRawContent` | server/app/repositories/dynamodb/evidence.py:116-118 | Refused under legal hold, otherwise the model's raw removal |
| `EvidenceRepository.Repository.DeleteEvidence` | server/app/repositories/dynamodb/evidence.py:133-142 | Succeeds if and only if the record is readable and unprotected, and then nothing of it is left |
| `EvidenceRepository.Repository.DeleteRecord` | server/app/repositories/dynamodb/evidence.py:137-141 | Removes META, source reference and lock or duplicate reference |
| `EvidenceRepository.Repository.DuplicateDeletionPreview` | server/app/repositories/dynamodb/evidence.py:100-104 | Lists exactly the duplicates of a canonical record with their impacts; refuses a duplicate |
| `EvidenceRepository.Repository.Assess` | server/app/repositories/dynamodb/evidence.py:103 | Every listed identifier is assessed, none fails |
| `EvidenceRepository.Repository.DeleteCandidates` | server/app/repositories/dynamodb/evidence.py:110-112 | The loop deletes exactly the deletable candidates, skips exactly the others, and no inner delete fails |
| `EvidenceRepository.Repository.DeleteUnprotectedDuplicates` | server/app/repositories/dynamodb/evidence.py:108-115 | Batch cleanup refines the model's; deleted and skipped partition the duplicates |
| `EvidenceConcurrency.DuplicateCommits` | server/app/repositories/dynamodb/evidence.py:40-66 | A duplicate may commit late or early: the record it names still holds the digest |
| `EvidenceConcurrency.OriginalCommits` | server/app/repositories/dynamodb/evidence.py:47-67 | An original that commits is the first for its digest |
| `EvidenceConcurrency.RunKeepsInv` | server/app/repositories/dynamodb/evidence.py:33-67 | The invariant of interleaved stores is kept by every sequence of steps |
| `EvidenceConcurrency.EveryRun` | server/app/repositories/dynamodb/evidence.py:33-67 | In every interleaving each stored digest has exactly one original, its lock names it, every duplicate points directly at it, and the items are those of a coherent library |
| `EvidenceConcurrency.AnsweredNewOnce` | server/app/repositories/dynamodb/evidence.py:46-67 | At most one call per digest is told that its content is new, and exactly one if no committed answer was lost |
| `StoreRaces.SourcelessIff` | server/app/repositories/dynamodb/evidence.py:40-66 | A step stores a record whose source does not exist if and only if it is the transaction after a lost race, of a new identifier, with the source gone |
| `StoreRaces.SourcelessDuplicate` | server/app/repositories/dynamodb/evidence.py:47-66 | A run in which that happens: two stores of one text race and the source is deleted before the loser is stored |
| `Instances.StoresFromEmpty` | server/app/repositories/dynamodb/evidence.py:33-67 | The same from an empty table with the real key formats, chunking and normalisation, whatever the hash function and the JSON writer do |
| `Instances.SavesFromEmpty` | server/app/repositories/dynamodb/planning.py:17-42 | The planning theorem from an empty table with the real section codec, assuming only that the JSON text of a snapshot reads back |
| `Instances.TextAndDigest` | server/app/repositories/dynamodb/evidence.py:15-21 | With the real normaliser: a text is kept as its words with one blank between neighbours, and its digest is the hash of that in UTF-8 |
| `Instances.SameWordsSameRecord` | server/app/repositories/dynamodb/evidence.py:15-67 | Two texts stored one after the other share their canonical record if and only if they consist of the same words, given a hash without collisions |
| `Instances.WordsReadBack` | server/app/repositories/dynamodb/evidence.py:15-76 | An original stored without a reference of its own reads as those words |
| `Scenario.OffersAre` | server/app/services/planning_service.py:314-323 | The index built over the scenarios offers every disruption once, with all scenarios that hold it |
| `Scenario.ComposedIsSound` | server/app/services/planning_service.py:304-361 | A composed scenario has 1 to 20 disruptions, each drawn from the generated ones in the order selected, with distinct contents, no target both closed and delayed, all relationship rules met, and its signals and active entries are exactly those of its disruptions |
| `Scenario.ComposeSucceedsIff` | server/app/services/planning_service.py:307-344 | A selection is composed if and only if no baseline was submitted, no two generated scenarios contradict each other about a disruption, and what the selection stands for meets every rule |
| `Scenario.ComposedProvenance` | server/app/services/planning_service.py:347-358 | Its sources are exactly the scenarios holding a chosen disruption, its probability is the greatest among them |
| `Scenario.DefaultSelectionIsFit` | server/app/services/planning_service.py:284-302 | The default selection can be refused only for disagreeing scenarios, a closed-and-delayed target or a broken relationship rule: never as empty, too large, unknown or duplicate |
| `Scenario.DefaultCovers` | server/app/services/planning_service.py:284-294 | The default selection leaves a content out only when twenty others come before it |
| `Scenario.ListedInOrder` | server/app/services/planning_service.py:339-346 | Signals and active entries of a scenario are listed in the order of its disruptions |
| `Scenario.DedupInOrder` | server/app/services/planning_service.py:309 | Of identifiers selected twice the first is kept, in its place |
| `Scenario.RecompositionForgets` | server/app/services/planning_service.py:304-361 | Composing again gives what composing at once would have given |
| `Scenario.RecompositionWithoutGenerated` | server/app/services/planning_service.py:314 | Without generated scenarios (`or [cycle.scenario]`) a second review that would have gone through at once forgets the first if and only if it selects nothing the first left out and the first kept the scenario's identity; one that would not go through at once does not go through after the first either |
| `Scenario.NarrowReviewLosesDisruptions` | server/app/services/planning_service.py:314-326 | There a second review goes through if and only if it would have gone through at once and every disruption it selects was in the first |
| `Scenario.NarrowReviewExample` | server/app/services/planning_service.py:314-326 | A cycle on which a disruption that could be selected no longer can after a review that leaves it out |
| `ScenarioReview.CollectOffers` | server/app/services/planning_service.py:315-323 | The nested loop builds that index, and stops exactly when the scenarios disagree |
| `ScenarioReview.CollectModes` | server/app/services/planning_service.py:332-338 | The loop collects for each target exactly the modes that apply to it |
| `ScenarioReview.ValidateRelationships` | server/app/services/planning_service.py:72-81 | The loop passes exactly the selections that meet every rule |
| `ScenarioReview.ComposeScenario` | server/app/services/planning_service.py:304-361 | The whole method computes the composition specified |
| `ScenarioReview.SelectDefault` | server/app/services/planning_service.py:284-294 | The loop computes the default selection specified |
| `ScenarioReview.CreateDraft` | server/app/services/planning_service.py:267-302 | A draft has a sound scenario from the default selection; with a non-empty first scenario it fails for the three reasons above only |
| `Ranking.NoReasons` | server/app/services/planning_service.py:519-520 | A plan has no disqualification reason exactly when it meets every hard constraint |
| `Ranking.ReasonsAre` | server/app/services/planning_service.py:519-520 | The reasons against a plan are exactly the constraints on a metric that it does not report or reports above the limit |
| `Ranking.ReasonsInOrder` | server/app/services/planning_service.py:519-520 | They are listed in the order of the constraints |
| `Ranking.RankingIsRight` | server/app/services/planning_service.py:512-534 | Ranked plans get distinct ranks 1..n in the lexicographic order of metrics then proposal, eligible plans before all others; unranked plans stay untouched |
| `Ranking.RanksInNumbers` | server/app/services/planning_service.py:512-534 | A plan ranks above another if and only if it alone meets every limit, or both or neither do and it has fewer late shipments, or as many and less delay, or as much and lower cost, or all three equal and the smaller identifiers; a metric not reported counts as the highest |
| `Ranking.RankReached` | server/app/services/planning_service.py:524-531 | Every rank from 1 to n is given |
| `Ranking.OneRecommendation` | server/app/services/planning_service.py:526-534 | Exactly one plan is newly recommended if some plan is eligible, none otherwise; it is first and meets every constraint |
| `Ranking.OrderDoesNotMatter` | server/app/services/planning_service.py:516-531 | Every plan gets the same result under any permutation of the plan list |
| `Ranking.RankingAgainRecommendsMore` | server/app/services/planning_service.py:512-534 | After n rankings as many more plans are recommended as were eligible, up to n |
| `Ranking.RankingAgainRecommendsRunnerUp` | server/app/services/planning_service.py:512-534 | Ranking twice leaves at most one recommended plan if and only if at most one plan was recommended or eligible before |
| `Ranking.SortSorts` | server/app/services/planning_service.py:523 | Sorting gives the same entries in order |
| `Ranking.PositionIsRank` | server/app/services/planning_service.py:524 | In the sorted list the position is one more than the number of better plans |
| `Ranking.NumberEntries` | server/app/services/planning_service.py:524 | The map built by enumerating gives every entry its position |
| `Ranking.RewritePlans` | server/app/services/planning_service.py:525-531 | The second loop rewrites exactly the ranked plans |
| `Ranking.RankCycle` | server/app/services/planning_service.py:512-534 | The whole method computes the ranking specified |
| `WorkflowRuns.SubmitBaselineKeeps` | server/app/services/planning_service.py:363-385 | Keeps the workflow invariant and the log, whatever the gateway answers |
| `WorkflowRuns.RefreshBaselineKeeps` | server/app/services/planning_service.py:387-401 | Keeps the workflow invariant and the log |
| `WorkflowRuns.ProposePlansKeeps` | server/app/services/planning_service.py:403-475 | Keeps the workflow invariant; proposals need a completed baseline |
| `WorkflowRuns.SubmitPlanKeeps` | server/app/services/planning_service.py:477-494 | Every submission logged names the completed baseline run and carries its payload unchanged |
| `WorkflowRuns.RefreshPlanKeeps` | server/app/services/planning_service.py:496-510 | An evaluated plan has a run and metrics |
| `WorkflowRuns.RankKeeps` | server/app/services/planning_service.py:512-534 | A recommended plan has rank 1, no reason, and meets every constraint of its cycle |
| `WorkflowRuns.DecideKeeps` | server/app/services/planning_service.py:536-550 | Only such a plan becomes approved |
| `WorkflowRuns.AdvanceKeeps` | server/app/api/planning.py:181-214 | The automatic advance keeps all of this |
| `WorkflowRuns.HandleKeeps` | server/app/api/planning.py:150-321 | So does every API call, creating included, failed or not |
| `WorkflowRuns.HandleCounts` | server/app/api/planning.py:170-321 | A successful call other than one that creates the cycle again submits the baseline exactly when it gives the cycle its run |
| `WorkflowRuns.EveryRun` | server/app/api/planning.py:150-321 | Over every run of API calls, saved or refused, creating the cycle again included: plans imply a completed baseline; evaluated, recommended and approved plans have run and metrics; recommended and approved ones have rank 1 and meet every constraint; every intervention follows the baseline it names, with its payload; baseline submissions are those stored, those lost and those of cycles replaced by a new draft |
| `WorkflowRuns.NothingLost` | server/app/services/planning_service.py:363-385 | If every call that submits is stored, the baseline was submitted once for the cycle as stored and once for each submitted cycle that a new draft replaced, and not otherwise |
| `WorkflowRuns.LostAnswerSubmitsTwice` | server/app/api/planning.py:221-234 | If the gateway's answer is lost, the next call submits the baseline again |
| `WorkflowStatus.HandleLeads` | server/app/api/planning.py:170-321 | Every API call that does not create the cycle again keeps every status but EVALUATED truthful and the submitted scenario frozen, and keeps EVALUATED truthful as well unless it ranks before the baseline has its result |
| `WorkflowStatus.HonestIff` | server/app/api/planning.py:150-321 | A successful call on a cycle with a true status, creating included, leaves a true status if and only if it is not POST /rank on a cycle whose baseline has no result |
| `WorkflowStatus.AlwaysHonestIff` | server/app/api/planning.py:150-321 | Over every run the status is true after every call if and only if no such ranking is stored |
| `WorkflowStatus.RankedDraft` | server/app/services/planning_service.py:512-534 | Ranking a draft makes it EVALUATED although no baseline was ever submitted |
| `WorkflowStatus.RankedFailure` | server/app/services/planning_service.py:512-534 | Ranking a running or failed baseline makes it EVALUATED without a result |
| `WorkflowStatus.EveryRun` | server/app/services/planning_service.py:304-401 | Over every run, whatever is ranked: proposed means no baseline, running or failed means one without result, validated, recommended, approved and rejected mean one with; no stored cycle is ever SUBMITTED. Up to the next create call with its identifier a submitted baseline keeps its run, scenario and result |
| `WorkflowStatus.SubmittedAtMostOnce` | server/app/services/planning_service.py:363-385 | The baseline of a draft is submitted at most once if every submission is stored and the cycle is not created again |
| `WorkflowStatus.CreatingAgainSubmitsTwice` | server/app/api/planning.py:150-161 | Creating the same cycle again, whose identifier is a hash of the generated scenarios, discards a stored submission; the next call submits the baseline a second time |
| `Provenance.RefreshBaselineStores` | server/app/services/planning_service.py:387-401 | What one call leaves of the cycle for each answer of the client, and what it logs: the results stored are those of the answer to this call |
| `Provenance.RefreshPlanStores` | server/app/services/planning_service.py:496-510 | A refresh that finds the run completed stores the results of that very call for that plan, and touches no other plan |
| `Provenance.SubmitBaselineStores` | server/app/services/planning_service.py:363-385 | A submission asks for the scenario's own versions, carries the scenario and stores the run it was answered with |
| `Provenance.SubmitPlanStores` | server/app/services/planning_service.py:477-494 | The same for a plan |
| `Provenance.ProposalsStore` | server/app/services/planning_service.py:403-475 | New proposals replace the plans, each as it was proposed, and objectives and constraints where given |
| `Provenance.HandleCarries` | server/app/api/planning.py:150-321 | Every API call keeps all results those of the client |
| `Provenance.EveryRun` | server/app/api/planning.py:150-321 | Over every run of API calls: the baseline run was accepted for the scenario as it is stored, part by part; a plan's run for that plan, its interventions, the same scenario and the baseline run; the baseline metrics are what the client reported for the baseline run, and those of a plan what it reported for a run accepted for the plan |
| `Handlers.HandlersLeaveNothing` | server/app/api/planning.py:181-300 | Submitting the baseline, refreshing it or a plan, and advancing go on as far as they can: whatever the client answers, a call that succeeds leaves no plan unsubmitted, no cycle with a result without plans unless none were to be had, and no finished plans unranked |
| `Handlers.NoPlansKeepBaseline` | server/app/api/planning.py:187-201 | A baseline with its result survives a planner that cannot be reached: the cycle takes the error code and is otherwise unchanged. Without any proposal it is EVALUATED |
| `Handlers.DefaultObjectives` | server/app/api/planning.py:189-192 | A cycle without objectives is planned for the three default ones |
| `Handlers.BaselineCallFails` | server/app/services/planning_service.py:387-401 | A call of the client that is not answered as it should fails with the client's code, or else with the contract error |
| `Handlers.SubmissionFails` | server/app/services/planning_service.py:363-385 | The same for a submission; a context that moved on is refused before anything is submitted |
| `Handlers.PlanCallFails` | server/app/services/planning_service.py:477-510 | The same for a plan |
| `Handlers.NoRunToRefresh` | server/app/services/planning_service.py:389-503 | Without a run, or with an empty identifier, there is nothing to refresh and the client is not asked |
| `Handlers.UnknownPlan` | server/app/services/planning_service.py:477-500 | Nor for a plan that there is not: the lookup fails before anything is sent |
| `Decisions.DecisionTakesEffect` | server/app/services/planning_service.py:536-550 | A decision that is accepted gives that plan the status decided, and the cycle as well for an approval or a recommended plan; exactly these decisions are refused: of an unknown plan, an approval of one not recommended, a rejection of one running or failed |
| `Decisions.HandleLeavesDecision` | server/app/api/planning.py:150-321 | An API call alters an approved or rejected plan only by creating its cycle again, by new proposals, by submitting that plan again or by a new decision on it |
| `Decisions.DecisionStands` | server/app/services/planning_service.py:477-550 | Over any run of other calls the decided plan stays exactly as it was decided |
| `Advance.AdvanceEachPlan` | server/app/api/planning.py:202-207 | The loop computes the advance of every plan in turn |
| `Advance.AdvanceToApproval` | server/app/api/planning.py:181-214 | The whole method computes the advance specified |
| `Advance.PlanSteps` | server/app/api/planning.py:203-207 | A plan is submitted exactly if it was unsubmitted; only this plan changes; its weight (unsubmitted 2, running 1, else 0) does not rise |
| `Advance.LoopFrom` | server/app/api/planning.py:202-207 | After the loop every plan has made exactly its own step |
| `Advance.LoopSubmits` | server/app/api/planning.py:202-207 | The loop submits each plan once if it was unsubmitted and never otherwise |
| `Advance.AdvanceMoves` | server/app/api/planning.py:181-214 | After a successful advance no plan is unsubmitted, no weight has risen, decided plans are unchanged |
| `Advance.AnyAdvances` | server/app/api/planning.py:181-214 | Over any sequence of advances, saved or not, weights never rise, decided plans are unchanged, and submissions are conserved: each plan's stored submissions balance with its being submitted |
| `Advance.FreshPlansSubmittedOnce` | server/app/api/planning.py:181-214 | A fresh plan is submitted at most once, not counting calls whose result was never stored |
| `Advance.AdvanceProgresses` | server/app/api/planning.py:202-207 | With terminal polls an advance uses up one of the advances each plan can still use (unsubmitted 2, running without metrics 1, else 0) |
| `Advance.RankSettles` | server/app/api/planning.py:208-213 | Ranking under the guard at the end is idempotent |
| `Advance.RankedIffAllIn` | server/app/api/planning.py:208-213 | After the loop the plans are ranked, under the cycle's own constraints, if and only if each is EVALUATED or FAILED and one is EVALUATED |
| `Advance.TwoAdvancesReachFixpoint` | server/app/api/planning.py:181-214 | With terminal polls two advances, from any plans, reach a cycle that a further one returns unchanged, asking the gateway nothing |
| `Advance.StuckPlansStayRunning` | server/app/api/planning.py:181-214 | After them a plan is left RUNNING if and only if it was running with metrics before, as a plan submitted again after its evaluation is; while there is one, the plans are never ranked |
| `Advance.ResubmittedPlanIsStuck` | server/app/api/planning.py:263-300 | A run that gets there: an evaluated plan is submitted again and queued, and after any number of advances, whatever the client answers, it is RUNNING and nothing was ranked |
| `Crawler.ChildrenAreShallow` | server/app/ingestion/discovery.py:288-346 | A page at depth within the limit offers nothing deeper than the limit |
| `Crawler.AnchorsAre` | server/app/ingestion/discovery.py:341-346 | The links followed are exactly those on the site, on an allowed path, and with a keyword if there are any, one level below their page |
| `Crawler.ChildrenAre` | server/app/ingestion/discovery.py:288-346 | What each kind of page puts forward, with depth and kind: a feed articles, a sitemap articles or further sitemaps, another page the feeds it announces and the links that pass the filter |
| `Crawler.EntriesAre` | server/app/ingestion/discovery.py:235-255 | Out of a list of offers every acceptable URL is taken up, with the depth and kind of its first offer |
| `Crawler.EntriesConcat` | server/app/ingestion/discovery.py:235-255 | Later offers only add to what earlier ones have left |
| `Crawler.FoundAreOffered` | server/app/ingestion/discovery.py:235-346 | The entries of a crawl are exactly those that seeds and visited pages offered, with the depth and kind offered |
| `Crawler.SeedsByMode` | server/app/ingestion/discovery.py:257-268 | Where a crawl starts in each mode; a feed or sitemap that is given is always visited |
| `Crawler.KeptAreArticles` | server/app/ingestion/discovery.py:316-334 | The entries kept are those visited whose page may be read, is relevant HTML with text, and is an article |
| `Crawler.AnsweredCount` | server/app/ingestion/discovery.py:328-333 | As many were created, or were duplicates, as the store answered so |
| `Crawler.QueueCount` | server/app/ingestion/discovery.py:354 | The queue counts each of its URLs once, so `discovered` counts distinct URLs |
| `Crawler.Crawl.Enqueue` | server/app/ingestion/discovery.py:235-255 | A URL goes to the end of the queue if and only if it is canonical, same-site, allowed and neither queued nor seen; otherwise it counts as skipped |
| `Crawler.Crawl.EnqueueAll` | server/app/ingestion/discovery.py:291-308 | A loop of offers adds their new entries to the queue, in order, and counts the rest as skipped |
| `Crawler.Crawl.EnqueueAnchors` | server/app/ingestion/discovery.py:342-346 | The same for navigation links, which have to pass the link filter |
| `Crawler.Crawl.TakeNext` | server/app/ingestion/discovery.py:273-277 | The next entry was never seen or requested, so the re-check after taking it out is dead code |
| `Crawler.Crawl.Request` | server/app/ingestion/discovery.py:281-287 | No URL is requested twice; only answered requests count as fetched |
| `Crawler.Crawl.KeepArticle` | server/app/ingestion/discovery.py:316-334 | A page becomes evidence exactly if it is relevant HTML with text and either named by a feed or sitemap or an article below the first page, and is counted as the store answers |
| `Crawler.Crawl.FollowLinks` | server/app/ingestion/discovery.py:336-346 | Announced feeds, in automatic mode, and the links that pass the filter are offered, nothing else |
| `Crawler.Crawl.ReadHtml` | server/app/ingestion/discovery.py:315-346 | An article is kept, any other page is searched for links unless it is as deep as the limit |
| `Crawler.Crawl.ReadPage` | server/app/ingestion/discovery.py:288-346 | Feeds, sitemaps and pages add exactly the new entries of what they offer, and count as error or evidence as they should |
| `Crawler.Crawl.Visit` | server/app/ingestion/discovery.py:278-346 | The same with permission and request: a round counts a page or leaves the queue alone |
| `Crawler.Crawl.Start` | server/app/ingestion/discovery.py:257-268 | The queue starts as the new entries of the seeds of the mode |
| `Crawler.Crawl.Round` | server/app/ingestion/discovery.py:272-346 | A round raises fetched or shortens the queue: the lexicographic measure that ends the crawl |
| `Crawler.Crawl.Run` | server/app/ingestion/discovery.py:270-360 | The crawl terminates on every site. Queue and seen are disjoint and duplicate-free, all same-site and within depth; the entries visited and then those queued are the first acceptable offers of each URL in the order in which seeds and visited pages made them, so the crawl is breadth-first; it stops only with an empty queue or at the page limit. The evidence lists each URL once, exactly those of visited pages that may be read, are relevant HTML with text and are articles; created and duplicate count the answers of the store, and discovered and skipped together count every URL that was put forward |
| `Schema.FitsDescends` | server/app/integrations/schema_validation.py:24-88 | Acceptance under an admitted, closed schema passes to the parts of a payload, one level deeper each time |
| `SchemaAdmission.AdmittedIff` | server/app/integrations/schema_validation.py:24-54 | A schema is admitted if and only if it takes at most 64000 bytes and everything `visit` reaches in it is at most twelve levels down and passes the checks on it |
| `SchemaAdmission.LocalChecks` | server/app/integrations/schema_validation.py:32-46 | Those checks: known keywords only, references inside the document, known types and formats, closed objects and limited arrays |
| `Schema.DescentBoundsDepth` | server/app/integrations/schema_validation.py:24-54 | Whatever passes down like that has at most 12 levels |
| `Schema.DescentBoundsSize` | server/app/integrations/schema_validation.py:57-88 | and at most as many nodes as the schema's property and item limits allow |
| `Schema.AdmissionBoundsPayloads` | server/app/integrations/schema_validation.py:24-88 | If a schema is admitted and every reachable subschema declares a type and every array its items, every accepted payload has at most 12 levels and a node count bounded by the schema alone (JSON Schema Validation 2020-12, sections 6.1.1 and 6.4.1) |
| `SchemaPossible.RealPossibleIff` | server/app/integrations/schema_validation.py:82-86 | Some number is within the bounds if and only if each lower bound leaves room below each upper one |
| `SchemaPossible.AcceptedVariant` | server/app/integrations/schema_validation.py:57-88 | If a document equal to a given one as Python compares is accepted, a recursive check of the given one says so |
| `SchemaPossible.VariantIsAccepted` | server/app/integrations/schema_validation.py:57-88 | and only then |
| `SchemaPossible.PossibleIff` | server/app/integrations/schema_validation.py:57-88 | A schema accepts some payload if and only if a check of its keywords says so that can be computed: declared types, bounds and lengths, listed values up to Python equality, required keys and item limits |
| `SchemaBounds.BoundingBounds` | server/app/integrations/schema_validation.py:57-88 | Under a bounding schema no accepted payload exceeds a count read off the schema |
| `SchemaBounds.UnboundingHasLarge` | server/app/integrations/schema_validation.py:57-88 | Under any other schema accepted payloads exceed every count |
| `SchemaBounds.BoundedIff` | server/app/integrations/schema_validation.py:57-88 | For every schema: the size of accepted payloads is bounded if and only if it is an enumeration, or every object it can accept has declared keys only with bounded values, and every non-empty array it can accept has a length limit and bounded items |
| `SchemaBounds.ClosedIsBounding` | server/app/integrations/schema_validation.py:24-54 | For admitted schemas, declaring types and items throughout is one way to meet that condition |
| `SchemaBounds.EnumIsBounding` | server/app/integrations/schema_validation.py:24-54 | and not the only one: an admitted enumeration without a type meets it too |
| `SchemaBounds.DepthIff` | server/app/integrations/schema_validation.py:57-88 | For every schema and every limit: all accepted payloads stay within that many levels if and only if every listed value that can be accepted does, every object it can accept has declared keys only with values one level shallower, and every non-empty array has items one level shallower |
| `SchemaBounds.AdmissionDepthIff` | server/app/integrations/schema_validation.py:24-54 | The limit of 12 of admission is a limit of the payloads if and only if the schema meets that condition at 12, as admitted schemas that declare types and items throughout do |
| `SchemaBounds.EnumIsDeep` | server/app/integrations/schema_validation.py:47-51 | Enumerations are not looked into on admission: one is admitted, bounds the size, and accepts a payload deeper than any given limit that fits the size of a schema |
| `Schema.UntypedSchemaBoundsNothing` | server/app/integrations/schema_validation.py:30-37 | A case that fails: `{}` is admitted and accepts arbitrarily deep payloads |
| `Schema.ArrayWithoutItemsBoundsNothing` | server/app/integrations/schema_validation.py:43-44 | Another: an array without `items`, however few items are allowed |
| `Validation.MatchesAny` | server/app/integrations/schema_validation.py:64-69 | The type test succeeds exactly when some listed kind matches before one that cannot be looked up |
| `Validation.CheckRequired` | server/app/integrations/schema_validation.py:71-72 | Clean exactly when every required key is present |
| `Validation.CheckExtras` | server/app/integrations/schema_validation.py:73-74 | Clean exactly when additional properties are allowed or none is there |
| `Validation.CheckProperties` | server/app/integrations/schema_validation.py:75-76 | Clean exactly when every declared property is accepted by its schema |
| `Validation.CheckItems` | server/app/integrations/schema_validation.py:80 | Clean exactly when every item is accepted |
| `Validation.CheckNumber` | server/app/integrations/schema_validation.py:82-86 | Clean exactly when all four bounds hold |
| `Validation.CheckEnum` | server/app/integrations/schema_validation.py:87 | Clean exactly when the payload equals a listed value, with Python's equality |
| `Validation.Validate` | server/app/integrations/schema_validation.py:57-88 | The recursive validator reports nothing and raises nothing exactly on accepted payloads |
| `StubMapping.RangePasses` | server/app/integrations/providers.py:147-152 | A number scaled across a range whose ends satisfy the bounds satisfies them for every severity |
| `StubMapping.RangeNeeded` | server/app/integrations/providers.py:147-152 | and only then: both ends of the range are generated |
| `StubMapping.ObjectPasses` | server/app/integrations/providers.py:136-141 | A generated object is valid if its required properties are declared and their values pass |
| `StubMapping.ObjectNeeds` | server/app/integrations/providers.py:136-141 | and only then |
| `StubMapping.ArrayPassesIff` | server/app/integrations/providers.py:142-146 | A generated array is valid exactly when its item passes and the limits allow the count |
| `StubMapping.ValueSuits` | server/app/integrations/schema_validation.py:57-88 | Under a well-typed schema a given value is accepted if and only if its type, length, bounds and enumeration and those of its parts are met |
| `StubMapping.GivenPassesIff` | server/app/integrations/providers.py:129-132 | A constant or the first value of an enumeration is a valid stub exactly if it meets type, length and bounds |
| `StubMapping.SatisfiablePasses` | server/app/integrations/providers.py:122-157 | A schema with satisfiable bounds gets a valid value for every severity in [0,1] and every field name |
| `StubMapping.PassingIsSatisfiable` | server/app/integrations/providers.py:122-157 | A schema that always gets a valid value has satisfiable bounds |
| `StubMapping.StubValidatesIff` | server/app/integrations/providers.py:122-157 | Both directions: the generator always produces valid values exactly for the satisfiable schemas |
| `StubMapping.EndsOfSeverity` | server/app/integrations/providers.py:147-152 | For a number with both bounds severity 0 gives the minimum and 1 the maximum, and the other way round for `capacity_multiplier`; integers are rounded |
| `StubMapping.SeverityIsShare` | server/app/integrations/providers.py:147-152 | In between the value is the share of the range that the severity says |
| `StubMapping.NoUpperEnd` | server/app/integrations/providers.py:147-151 | Without a maximum the value is the minimum, zero if there is none, at every severity |
| `StubMapping.KindIsFirst` | server/app/integrations/providers.py:134-135 | Of several types the first that is not null is meant |
| `StubMapping.RoundIsNearest` | server/app/integrations/providers.py:151 | Rounded means the nearest integer, and of two the even one |
| `StubMapping.SeverityIsMonotone` | server/app/integrations/providers.py:147-152 | The number does not fall as severity rises, and for `capacity_multiplier` it does not rise |
| `StubMapping.PropertiesByName` | server/app/integrations/providers.py:136-141 | A generated object has exactly its required properties that are declared, each generated under its own name |
| `StubMapping.EndsInObject` | server/app/integrations/providers.py:136-152 | So the ends of a range show up in the object as severity 0 and 1 require |
| `StubMapping.OtherKinds` | server/app/integrations/providers.py:122-157 | A constant, the first of an enumeration, `stub`, null; true exactly from severity one half on; an array of as many items as it needs |

## Left out

- The web client, HTTP routing and status codes, migrations, scheduling, configuration and error texts.
- The model providers and the HTTP gateway: their answers are arbitrary. In `propose_plans` the
  catalog, entity searches, the planner's answer and the checks on it are one reply, which is either a
  list of proposals or the kind of failure; proposal identifiers are taken to give distinct plan
  identifiers, as their hashes do.
- SHA-256, UUIDs, `Decimal`, `int()` and JSON text: functions, with the one law each that is used
  (JSON text reads back; a decimal's own text reads back; `int` reads numerals). Where only hashes
  are compared no law is assumed.
- Parsing of URLs, robots files, feeds, sitemaps and HTML: the crawl gets canonical URLs, permissions
  and page contents as functions of the URL. Redirects matter only in the stored evidence and are
  left out with it. A crawl with discovery disabled is one page and is left out.
- Floating point: metrics, probabilities, severities and schema bounds are real numbers, a missing
  metric is infinite. NaN and the rounding error of a scaled value are not modelled.
- Timestamps: `updated_at`, `collected_at` and their index keys are left out; nothing is claimed
  about time order. The archived mark is a flag.
- DynamoDB query paging: a query sees its whole partition at once, as for partitions under 1 MB.
- The PostgreSQL save of planning cycles, which writes without a version predicate.
- `update` of evidence, which changes a record's hash without moving its lock, and deletes running
  concurrently with stores.
- EvidenceRepository.Repository.DeleteChunks: reads its query as up to date. The code does not ask
  for a consistent read there, so chunks written shortly before may survive their record.
- PlanningStore.ReplaceStores: DynamoDB's limit on the total size of a transaction, 4 MB, is not
  modelled; a snapshot of more than about 68 full sections is refused by it although it is
  within the 90 sections the code allows.
- `_write` of evidence, which only `update` uses.
- Validation.Validate: says when the list of messages is empty, and that nothing was raised; which
  messages appear otherwise is not part of the contract.
- Crawler.Crawl.Run: error messages are only counted.
- Schema.AdmissionBoundsPayloads: strings of a schema are an enumeration of the words the code
  mentions plus any other text, so that a word has one form; a text that spells one of the
  enumerated words is meant to be that word.
- PlanningConcurrency.EveryRun: follows one cycle; other partitions may change at any time.
- PlanningSystem.EveryCommitIsSound: how a snapshot's JSON shows a cycle is a function that does not
  look at the version; the submissions of calls whose save was refused are counted by
  `WorkflowRuns.EveryRun`, not here.
- EvidenceConcurrency.EveryRun: starts from an empty evidence library; stores only.
- `start_cycle`, which no API call reaches, and `generate_scenarios`. The limit of 20 scenarios that a
  cycle accepts is part of `CreateDraft`: a run that generates more is refused there.
- The ranking explanation text, names and planner metadata of plans.
- Signal review and its risk index, prompts, sources, relationships and collection counters: plain
  reads and writes that would add easy members only.
