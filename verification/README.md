# Verified model of the ERP assistant's core logic

This Dafny 4.11 project models the parts of the ERP assistant whose correctness is not visible in
any single function: publishing and rolling back knowledge generations, preparing and planning
them, chunking, retrieval metrics and calibration, rank fusion, keyset pages behind a signed cursor,
the trusted chat pipeline, nested resource lifecycles, embedding batches and Markdown sections.
`dafny verify dfyconfig.toml` checks all of it.

Code that changes state is modelled by classes and loops and proved against specification functions
or declarative predicates; the theorems are lemmas about those. Hash functions, MACs, JSON parsing,
timestamps, the discount `1/log2(rank+1)`, `math.nextafter`, the model, the handlers, the audit
sinks and the embedding provider are parameters; whatever is assumed of one of them is a named
hypothesis of the lemma that needs it.

| module | about |
|---|---|
| `Publication`, `PublicationSafety`, `PublicationRuns`, `PublicationHistory`, `PublicationAnswers`, `PublicationOutcome`, `PublicationFailure` | the tables of one knowledge database, the transactions that publish and roll back, what every run of any number of clients keeps and shows when looking back, which answer belongs to which request, exactly when a transaction succeeds and what it writes, and when a failed one has taken effect |
| `CanonicalJson`, `GenerationDigest`, `PublicationPlan`, `PlannedPublication` | the text that a generation digest covers and its unique decoding, planning from bundles in any order, and publishing what was planned |
| `Ingestion`, `Packing`, `Chunking`, `Text` | preparing a governed document; splitting and packing under a character and a byte budget |
| `Metrics`, `RetrievalNumbers`, `Calibration` | nDCG as a rearrangement bound, what the four metrics measure, and the threshold that is optimal on the whole interval |
| `Fusion` | reciprocal rank fusion with exact scores |
| `Base64Url`, `Cursor`, `CursorText`, `Pagination`, `LeaveListing` | segments, signed cursors, their text and size, pages over a changing table, and whole listings that follow the cursors |
| `ToolGateway`, `Orchestration`, `Application` | one chat request against an adversarial model, handler, resolver and audit sinks |
| `Lifecycle`, `OwnershipLease` | opening and closing a tree of resources with a failure at any point |
| `Embeddings`, `MarkdownSections` | batches of vectors; sections of a token stream |
| `Ordering`, `Wrappers`, `KnowledgeModels` | shared vocabulary |

## Where the code is not what its description suggests

- A cursor of more than 512 characters cannot be issued, and the provider turns that into an
  unavailable page, so a listing of more than one page need not finish. Key ids may have 128
  characters, but with clocks of ten digits, timestamps of 32 characters and a page size of two digits
  only 38 fit, escapes counted (`Cursor.KeyIdBound`). `LeaveListing.LongKeyFails` is an instance with
  39 letters; `LeaveListing.WholeListing` says exactly when a listing finishes, and
  `LeaveListing.KeyIdDecides` reduces that to the key ids.
- A router closes its pools after an exception or a cancellation, but not after any other
  `BaseException`. `Lifecycle.Runtime.Startup` therefore states that, when closing never fails, nothing
  stays open after a failed startup exactly when the faults do not meet `LeaksInTurn`, which says at
  which pool and operation such an exit must come; `Lifecycle.FatalStartupLeaks` is an instance and
  `Lifecycle.OnlyFatalLeaks` says exceptions and cancellations never leak then.
- A publication can answer a storage error although its COMMIT took effect, when the confirmation is
  lost. `PublicationFailure.LostReplyChanges` is an instance, `PublicationFailure.FailedPublishChanges`
  and `FailedRollbackChanges` say from the tables and the request exactly when it happens, and
  `PublicationHistory.RetryReturnsStored` that asking again then returns the stored result.
- The heading path of a Markdown section stays within the heading level exactly for levels of at least
  one: a tag `h0` would make the slice start at the last entry (`MarkdownSections.PathBoundedIff`).
  Markdown itself has no such tag.
- The publisher never compares the chunk ids inside one bundle with each other; that they differ rests
  on the shortened digest. `PlannedPublication.AcceptedIsStorable` says that an accepted plan fits the
  tables exactly under this condition, `IdsDistinct`.
- `SignedLeaveRequestCursor.decode` does not catch the `AttributeError` that a request id that is
  neither a string nor null would raise. `Cursor.Decode` keeps that outcome apart;
  `Cursor.AcceptedWasIssued` shows that under an ideal MAC no cursor leads to it.
- An exception of the trusted clock leaves `TrustedChatApplication.execute` without an answer and
  without an audit; the model keeps that path (`ClockFails`).

## Model

| member | source | states |
|---|---|---|
| `Publication.Repository.CommitGeneration` | src/erp_ai/infrastructure/postgres/knowledge_repository.py:125-200 | the tables and the result after a publication attempt are those of the transaction function: everything the statements did, or nothing when they or the database fail, or everything with a storage error when the confirmation of the COMMIT is lost; under an operation id that is stored already nothing changes, and the stored result is the answer exactly when it is a publication with the same digest, a conflict otherwise |
| `Publication.Repository.RunPublish` | src/erp_ai/infrastructure/postgres/knowledge_repository.py:132-190 | the statements in order: identity, earlier operation with the comparison of kind and digest, pointer comparison, insert, switch of statuses and pointer, result and outbox |
| `Publication.Repository.InsertGeneration` | src/erp_ai/infrastructure/postgres/knowledge_repository.py:202-310 | one candidate generation with all its rows is stored and counted, or the failure is the one the constraints give |
| `Publication.Repository.BuildRows` | src/erp_ai/infrastructure/postgres/knowledge_repository.py:222-267 | the nested loops collect one row for each document and one for each chunk, in order |
| `Publication.Repository.AddChunks` | src/erp_ai/infrastructure/postgres/knowledge_repository.py:277-285 | chunk rows go in one by one until a unique index or the reference to the document refuses one |
| `Publication.Repository.PersistResultAndOutbox` | src/erp_ai/infrastructure/postgres/knowledge_repository.py:312-350 | the operation and its audit row are recorded together, exactly when neither the operation id nor the outbox id is taken at this customer, or not at all |
| `Publication.Repository.CommitRollbackOf` | src/erp_ai/infrastructure/postgres/knowledge_repository.py:386-492 | the same for a rollback attempt, whose stored result must be a rollback with the same digest |
| `Publication.Repository.GetActiveSnapshot` | src/erp_ai/infrastructure/postgres/knowledge_repository.py:352-384 | a snapshot is the pointer of the scope, or the failure, and never changes a table |
| `PublicationSafety.SwitchKeeps` | src/erp_ai/infrastructure/postgres/knowledge_repository.py:155-178 | switching keeps every pointer on an active generation of its own scope and digest, keeps every active generation pointed at, and leaves no candidate |
| `PublicationSafety.ActivationKeeps` | src/erp_ai/infrastructure/postgres/knowledge_repository.py:152-190 | one activation with its record keeps the whole invariant: pointers, statuses, outbox chain, operations and outbox in bijection, complete content |
| `PublicationSafety.StoreHolds` | src/erp_ai/infrastructure/postgres/knowledge_repository.py:202-310 | a stored generation holds exactly the planned documents and chunks, and nothing stored before is touched |
| `PublicationSafety.PublishKeeps` | src/erp_ai/infrastructure/postgres/knowledge_repository.py:125-190 | a new publication keeps the invariant and its generation holds exactly the plan's content |
| `PublicationSafety.RollbackKeeps` | src/erp_ai/infrastructure/postgres/knowledge_repository.py:386-484 | a new rollback keeps the invariant and touches no content |
| `PublicationRuns.CommitEffect` | src/erp_ai/infrastructure/postgres/knowledge_repository.py:125-200 | any commit either changes nothing and returns a stored result or a failure, or carries out one new operation completely, replacing exactly the generation its caller expected, and answers with its result unless the confirmation was lost |
| `PublicationRuns.FailureChangesNothing` | src/erp_ai/infrastructure/postgres/knowledge_repository.py:191-200 | a failed attempt leaves every table as it was exactly when it is not a new operation whose COMMIT took effect and whose confirmation was lost; and then it has done just what its success would have done |
| `PublicationFailure.FailedPublishChanges` | src/erp_ai/infrastructure/postgres/knowledge_repository.py:125-200 | a publication that answers an error has changed the tables exactly when it is new, tables and plan allow it, and only the confirmation of its COMMIT was lost |
| `PublicationFailure.FailedRollbackChanges` | src/erp_ai/infrastructure/postgres/knowledge_repository.py:386-492 | the same for a rollback |
| `PublicationFailure.LostReplyChanges` | src/erp_ai/infrastructure/postgres/knowledge_repository.py:199-200 | a concrete publication into an empty database that answers an error and is stored |
| `PublicationRuns.RunKeeps` | src/erp_ai/knowledge/indexing/publisher.py:303-361 | over any interleaving of clients that look up early and commit late, with faults, cancellations and lost confirmations, every state is sound, every successful answer is the stored result, and nothing recorded is lost or rewritten |
| `PublicationRuns.RunsAreSound` | src/erp_ai/infrastructure/postgres/knowledge_repository.py:125-190 | from a fresh database every run of any number of clients satisfies the invariant |
| `PublicationRuns.OneActivePerScope` | src/erp_ai/infrastructure/postgres/knowledge_repository.py:155-169 | two active generations of one customer and namespace are the same |
| `PublicationHistory.SnapshotIsComplete` | src/erp_ai/infrastructure/postgres/knowledge_repository.py:352-384 | after any run a snapshot names the scope's active generation with its digest, and that generation holds exactly the documents and chunks of a plan that was asked for in the run and published as it |
| `PublicationHistory.RetryReturnsStored` | src/erp_ai/infrastructure/postgres/knowledge_repository.py:135-143 | once an operation has taken effect, with its answer delivered, lost or cancelled, and whatever happened since, asking again returns the stored result and changes nothing |
| `PublicationRuns.OneResultPerOperation` | src/erp_ai/infrastructure/postgres/knowledge_repository.py:135-143 | all successful answers for one operation id are the same result, even when a retry carried a new generation id |
| `PublicationRuns.OneEffectPerOperation` | src/erp_ai/infrastructure/postgres/knowledge_repository.py:312-350 | an operation is stored exactly if it has an audit row, and it has at most one |
| `PublicationRuns.OneWinner` | src/erp_ai/infrastructure/postgres/knowledge_repository.py:144-153 | of two audit rows of a scope that replaced the same generation, the second came only after a row in between had made that generation active again |
| `PublicationHistory.OneWinnerInRun` | src/erp_ai/infrastructure/postgres/knowledge_repository.py:144-153 | of two operations of a run that were carried out and expected the same generation of a scope, the second came only after a third one in between had made it active again; of several that expect an empty scope only one is ever carried out |
| `PublicationHistory.AnsweredMeans` | src/erp_ai/infrastructure/postgres/knowledge_repository.py:135-151 | a commit that answers with success was carried out then exactly if its operation was not stored before |
| `PublicationRuns.PublishThrough` | src/erp_ai/knowledge/indexing/publisher.py:303-322 | the publisher's lookup and commit are a two-step run of one client; a stored operation is answered as its kind and digest say |
| `PublicationRuns.RollbackThrough` | src/erp_ai/knowledge/indexing/publisher.py:329-361 | the same for a rollback |
| `PublicationAnswers.StoredDecides` | src/erp_ai/knowledge/indexing/publisher.py:303-322 | a request whose id is stored is answered with the stored result exactly when that has the kind and the digest of the request, and with a conflict otherwise, by the early lookup and by the commit of a client that saw nothing, and no table changes |
| `PublicationAnswers.StoredWithFault` | src/erp_ai/infrastructure/postgres/knowledge_repository.py:132-200 | the same for a commit that meets a fault |
| `PublicationAnswers.EarlyAnswers` | src/erp_ai/knowledge/indexing/publisher.py:312-321 | what the lookup answers, and when a client goes on to its commit |
| `PublicationAnswers.SuccessesAreOwn` | src/erp_ai/knowledge/indexing/publisher.py:303-361 | in every run each successful answer has the operation id, the kind and the digest of its own request |
| `PublicationAnswers.OneOperationPerId` | src/erp_ai/knowledge/indexing/publisher.py:303-361 | from a fresh database two successful answers under one id belong to requests of the same kind and digest and are the same result |
| `PublicationAnswers.PublishWrites` | src/erp_ai/infrastructure/postgres/knowledge_repository.py:125-190 | a new publication that succeeds writes, column by column: the generation with its counts, the pointer, the retired generation, the result and the audit row |
| `PublicationAnswers.RollbackWrites` | src/erp_ai/infrastructure/postgres/knowledge_repository.py:386-484 | the same for a rollback |
| `PublicationOutcome.StoredIff` | src/erp_ai/infrastructure/postgres/knowledge_repository.py:202-310 | a generation is stored exactly when its id is new, its documents are distinct, its chunks collide in no unique index and belong to its documents, and the declared counts are right |
| `PublicationOutcome.PublishSucceedsIff` | src/erp_ai/infrastructure/postgres/knowledge_repository.py:132-190 | a new publication succeeds exactly when identity, expected pointer, generation, content and outbox id allow it |
| `PublicationOutcome.RollbackSucceedsIff` | src/erp_ai/infrastructure/postgres/knowledge_repository.py:392-484 | a new rollback succeeds exactly when the database is the customer's, the pointer is the expected one, the target is a retired generation of the same scope and the outbox id is new |
| `PublicationOutcome.RoundTrip` | src/erp_ai/infrastructure/postgres/knowledge_repository.py:125-484 | publishing over a generation and rolling back to it restores the pointer and every earlier generation and leaves the new one retired |
| `CanonicalJson.StreamUniquelyDecodable` | src/erp_ai/knowledge/indexing/publisher.py:41-46 | canonical JSON objects written without separators can be read back in one way only |
| `CanonicalJson.SerializeInjective` | src/erp_ai/knowledge/indexing/publisher.py:41-46 | two values with the same canonical text are equal |
| `CanonicalJson.EscapeSize` | src/erp_ai/knowledge/indexing/publisher.py:41-42 | what each character takes in a canonical text: two with a short escape, six for the other control characters, one for any other, as non-ASCII characters are not escaped |
| `GenerationDigest.Compute` | src/erp_ai/knowledge/indexing/publisher.py:121-163 | the digest of the loop is the hash of the header, the documents with their chunks, and the totals |
| `GenerationDigest.StreamsEqualIff` | src/erp_ai/knowledge/indexing/publisher.py:121-163 | two generations feed the hash the same text exactly when their scopes are equal, their documents agree one by one in id, version, fingerprint, governance digest, provenance digest, chunk ids and content digests, and their byte totals are equal |
| `GenerationDigest.DigestsDiffer` | src/erp_ai/knowledge/indexing/publisher.py:121-163 | under a collision-free hash equal digests mean equal scope, documents, governance, provenance and chunk contents |
| `GenerationDigest.ObjectsAscend` | src/erp_ai/knowledge/indexing/publisher.py:41-46 | every object that is hashed has its keys in ascending order at every depth, as sorting the keys of a dictionary gives |
| `PublicationPlan.ValidateChunkMetadata` | src/erp_ai/knowledge/indexing/publisher.py:61-113 | the loops accept exactly bundles whose chunks are numbered from zero, share one governance, repeat document, version, namespace, source type and customer of the manifest, and carry the ids derived from its fingerprint and their number |
| `PublicationPlan.CheckBundle` | src/erp_ai/knowledge/indexing/publisher.py:216-262 | one more bundle is taken exactly when it is fit on its own, repeats no id seen so far and exceeds no limit |
| `PublicationPlan.BuildPlan` | src/erp_ai/knowledge/indexing/publisher.py:188-301 | a list is accepted exactly when a declarative condition holds in which its order plays no part, and the plan is that of the sorted bundles |
| `PublicationPlan.OrderDoesNotMatter` | src/erp_ai/knowledge/indexing/publisher.py:188-301 | a list is accepted exactly when each permutation is, with the same plan: ordered bundles, digests and totals |
| `PublicationPlan.TotalsPermute` | src/erp_ai/knowledge/indexing/publisher.py:254-262 | chunk and byte totals do not depend on the order |
| `PublicationPlan.OrderedByDocument` | src/erp_ai/knowledge/indexing/publisher.py:263-268 | the bundles of a plan are strictly ordered by document id |
| `PublicationPlan.OpaqueIdsDiffer` | src/erp_ai/knowledge/indexing/publisher.py:49-51 | without a collision of the shortened digests two ids are equal exactly for the same kind, fingerprint and ordinal |
| `PublicationPlan.FingerprintsDiffer` | src/erp_ai/knowledge/ingestion/service.py:147-149 | fingerprints are equal exactly for equal content and governance digests |
| `PublicationPlan.OperationDigestsDiffer` | src/erp_ai/knowledge/indexing/publisher.py:269-271 | two plans have the same operation digest exactly when scope, document and chunk records and byte total agree, so new generation ids do not change it and other content does |
| `PlannedPublication.AcceptedIsStorable` | src/erp_ai/knowledge/indexing/publisher.py:188-301 | an accepted plan fits the tables exactly when the opaque ids inside each document differ, and its audit event speaks of itself |
| `PlannedPublication.PublishAccepted` | src/erp_ai/knowledge/indexing/publisher.py:303-322 | publishing an accepted plan as a new operation succeeds exactly when the database still points where the caller expects and the fresh ids are unused; it then holds exactly the plan, and its audit row comes from the context |
| `Ingestion.PreparedIsPublishable` | src/erp_ai/knowledge/ingestion/service.py:84-198 | every prepared bundle passes the publisher's checks of totals and chunk metadata |
| `Ingestion.PreparedBundleOk` | src/erp_ai/knowledge/ingestion/service.py:49-61 | a prepared bundle is acceptable exactly for its own namespace and customer, with its modules installed and before it expires |
| `Ingestion.PrepareFailsIff` | src/erp_ai/knowledge/ingestion/service.py:84-198 | preparation succeeds exactly under the governance rules, the limits on sections, blocks, block bytes, document bytes and chunks, for a document that is new, newer than its manifest, or the same version with the same fingerprint, and for words that fit a chunk |
| `Ingestion.PreparedIs` | src/erp_ai/knowledge/ingestion/service.py:108-198 | what a prepared bundle says: new, idempotent or superseding with the version it supersedes; the digests, the fingerprint and the byte total of the draft; and one chunk for each piece of text, with every column |
| `Ingestion.OlderIff` | src/erp_ai/knowledge/ingestion/service.py:73-81 | versions compare by the first of major, minor and patch that differs |
| `Ingestion.TotalBytesIs` | src/erp_ai/knowledge/ingestion/service.py:119-122 | the byte total is the size of title, headings and blocks written in a row |
| `Ingestion.PrepareAgain` | src/erp_ai/knowledge/ingestion/service.py:64-81 | preparing a document again over its own manifest is idempotent and gives the same chunks |
| `Ingestion.VersionTextInjective` | src/erp_ai/knowledge/ingestion/service.py:40-42 | comparing parsed versions and comparing their texts for equality agree |
| `Packing.PackPartitions` | src/erp_ai/knowledge/ingestion/chunking.py:63-75 | packing neither drops, repeats nor reorders a part, and every text meets both limits |
| `Packing.PackOverlaps` | src/erp_ai/knowledge/ingestion/chunking.py:71-73 | each prefix is a bounded suffix of the text before it |
| `Packing.OverlapIs` | src/erp_ai/knowledge/ingestion/chunking.py:44-52 | what is carried over, by positions: nothing without overlap; all of a text that is no longer than it; otherwise, of the last characters it allows, what begins at the first visible one, or after the first blank behind that |
| `Packing.PackFollows` | src/erp_ai/knowledge/ingestion/chunking.py:63-75 | a text starts with what the one before carries over exactly when that and its first part fit together, and it ends only where the next part would not fit |
| `Packing.PackIsPacked` | src/erp_ai/knowledge/ingestion/chunking.py:63-75 | the packed texts, named without the packing function, are what these rules give |
| `Text.StripIs` | src/erp_ai/knowledge/ingestion/chunking.py:47-47 | stripping leaves what lies between the first and the last visible character |
| `Text.WordsAre` | src/erp_ai/knowledge/ingestion/chunking.py:26-26 | the words of a text are its maximal runs of visible characters, in order |
| `Text.Utf8SizeIs` | src/erp_ai/knowledge/ingestion/chunking.py:16-20 | a text takes one byte for each character and one more at each of three thresholds |
| `Packing.GreedyStaysAhead` | src/erp_ai/knowledge/ingestion/chunking.py:30-41 | no cut of a longer text into fitting runs has fewer runs than the greedy packing of its end |
| `Packing.GreedyOptimal` | src/erp_ai/knowledge/ingestion/chunking.py:30-41 | without overlap greedy packing is a fitting cut with the fewest runs |
| `Chunking.PackWords` | src/erp_ai/knowledge/ingestion/chunking.py:29-41 | the word loop fails when a word does not fit and otherwise produces the greedy packing |
| `Chunking.PackUnits` | src/erp_ai/knowledge/ingestion/chunking.py:63-75 | the unit loop produces the greedy packing with overlap: each text is a run of units in order, opened by what the text before carries over when that fits, closed where the next unit would not fit |
| `Chunking.ChunkSections` | src/erp_ai/knowledge/ingestion/chunking.py:55-78 | the section loop yields, section after section and under its key and heading, the texts that these rules give, or fails when a word does not fit |
| `Chunking.ChunksSectioned` | src/erp_ai/knowledge/ingestion/chunking.py:55-78 | the same of the specification function |
| `Chunking.SplitFailsIff` | src/erp_ai/knowledge/ingestion/chunking.py:23-41 | splitting a block fails exactly when one of its words alone exceeds one of the limits |
| `Chunking.SplitPiecesFit` | src/erp_ai/knowledge/ingestion/chunking.py:23-41 | every piece meets both limits and is trimmed |
| `Chunking.SplitKeepsWords` | src/erp_ai/knowledge/ingestion/chunking.py:23-41 | splitting keeps the exact word sequence |
| `Chunking.SplitMinimal` | src/erp_ai/knowledge/ingestion/chunking.py:23-41 | no cut of the word list into consecutive fitting runs has fewer pieces |
| `Chunking.SectionPartition` | src/erp_ai/knowledge/ingestion/chunking.py:55-78 | the runs of a section's chunks are its units in order, together they have the words of its blocks, every chunk meets both limits, and each begins with what the chunk before carries over exactly when that fits |
| `Chunking.SectionMinimal` | src/erp_ai/knowledge/ingestion/chunking.py:55-78 | with zero overlap a section gets as few chunks as any cut of its units allows |
| `Chunking.ChunksFailIff` | src/erp_ai/knowledge/ingestion/chunking.py:55-78 | chunking a document fails exactly when some word of it does not fit |
| `Chunking.ChunksTrimmed` | src/erp_ai/knowledge/ingestion/chunking.py:76-78 | no chunk is blank, so the last check never fires |
| `Chunking.SectionsStaySeparate` | src/erp_ai/knowledge/ingestion/chunking.py:55-78 | no chunk crosses a section |
| `Metrics.TopTotal` | src/erp_ai/knowledge/evaluation/metrics.py:23-26 | any picked grades total at most what as many top grades total |
| `Metrics.DominatedDcg` | src/erp_ai/knowledge/evaluation/metrics.py:18-26 | prefix-wise dominated gains have at most the discounted gain, with equality only for equal grades |
| `Metrics.ObservedDominated` | src/erp_ai/knowledge/evaluation/metrics.py:11-12 | each prefix of a ranking totals at most the same prefix of the ideal |
| `Metrics.RankingBound` | src/erp_ai/knowledge/evaluation/metrics.py:18-27 | the discounted gain of a ranking never exceeds the ideal one and equals it exactly for a ranking that starts with the ideal grades |
| `Metrics.MetricsInUnit` | src/erp_ai/knowledge/evaluation/metrics.py:8-28 | all four metrics lie in [0, 1], and nDCG is one exactly for such a ranking of a non-empty set; what each of them measures is stated by the next three |
| `RetrievalNumbers.PrecisionAndRecall` | src/erp_ai/knowledge/evaluation/metrics.py:11-15 | precision times the limit, and recall times the number of relevant ids, are the number of the first positions whose id is relevant |
| `RetrievalNumbers.ReciprocalRank` | src/erp_ai/knowledge/evaluation/metrics.py:16-17 | one over the position of the first relevant id among them, and zero without one |
| `RetrievalNumbers.NormalisedGain` | src/erp_ai/knowledge/evaluation/metrics.py:18-27 | nDCG times the discounted gain of the relevant ids in their best order is the discounted gain of the ranking, both summed position by position |
| `Calibration.Measure` | src/erp_ai/knowledge/evaluation/calibration.py:85-111 | the inner loop yields the means of a threshold: the four of the answerable cases, each a total over retained results divided by their number; all of the empty cases stay empty or not; and the security flag is set exactly when a retained result carries one of the three flags |
| `Calibration.CollectEligible` | src/erp_ai/knowledge/evaluation/calibration.py:85-131 | the outer loop keeps exactly the candidates at which no retained result of any case has one of the three flags, every empty case stays empty and the means reach the gates |
| `Calibration.EligibleIff` | src/erp_ai/knowledge/evaluation/calibration.py:85-121 | passing, said on the observations: retained results, empty cases, totals and gates |
| `Calibration.RetainedPlaces` | src/erp_ai/knowledge/evaluation/calibration.py:90-91 | retained are exactly the results at or above the threshold, in their order |
| `Calibration.CandidatesAre` | src/erp_ai/knowledge/evaluation/calibration.py:78-83 | the candidates are zero, one, the scores and the successors of those below one, ascending |
| `Calibration.KeyAtMostIff` | src/erp_ai/knowledge/evaluation/calibration.py:132-143 | selections compare by precision, recall, MRR, nDCG and threshold in this order |
| `Calibration.CandidateFor` | src/erp_ai/knowledge/evaluation/calibration.py:78-83 | every threshold in [0, 1] that passes is matched by a candidate at least as large with the same metrics |
| `Calibration.SelectSemanticThreshold` | src/erp_ai/knowledge/evaluation/calibration.py:62-143 | the answer is the lexicographic optimum over every real threshold in [0, 1] at which no retained result has one of the three flags, empty cases stay empty and the means reach the gates; it is an observed score or one, the search fails exactly when there is no such threshold, and no selection it constructs is refused |
| `Calibration.SelectionsConstruct` | src/erp_ai/knowledge/evaluation/calibration.py:49-59 | the threshold and the four means of every selection that the search constructs lie in [0, 1] |
| `Fusion.TopKUnique` | src/erp_ai/infrastructure/postgres/hybrid_retrieval.py:162-163 | only one sequence is the best `k` by score, then id |
| `Fusion.ScoreAt` | src/erp_ai/infrastructure/postgres/hybrid_retrieval.py:158-160 | the score of an id is the sum of weight over rank constant plus position, over the lists that have it |
| `Ordering.StringLeIff` | src/erp_ai/infrastructure/postgres/hybrid_retrieval.py:162-163 | strings compare at their first different character |
| `Ordering.SortStable` | src/erp_ai/infrastructure/postgres/hybrid_retrieval.py:162-163 | sorting keeps the order of tied elements |
| `Fusion.ReadList` | src/erp_ai/infrastructure/postgres/hybrid_retrieval.py:150-160 | reading one list updates both dictionaries item by item, or stops at a metadata clash |
| `Fusion.ReadLexical` | src/erp_ai/infrastructure/postgres/hybrid_retrieval.py:150-160 | after the first list every id has its match and its weight over constant plus rank |
| `Fusion.ReadSemantic` | src/erp_ai/infrastructure/postgres/hybrid_retrieval.py:150-160 | after the second list scores are the sums of both shares; it stops exactly when two matches of one id disagree |
| `Fusion.ReciprocalRankFusion` | src/erp_ai/infrastructure/postgres/hybrid_retrieval.py:134-163 | the three errors occur exactly under their conditions, and otherwise the result is the best `k` of the union with the stored matches |
| `Fusion.SmallerLimit` | src/erp_ai/infrastructure/postgres/hybrid_retrieval.py:161-163 | a smaller limit gives a prefix |
| `Fusion.SwapLists` | src/erp_ai/infrastructure/postgres/hybrid_retrieval.py:134-163 | swapping the lists with their weights and limits gives the same ids in the same order |
| `Fusion.Dominance` | src/erp_ai/infrastructure/postgres/hybrid_retrieval.py:158-162 | an id ranked no worse in both lists and better in one comes first |
| `Fusion.OneListEmpty` | src/erp_ai/infrastructure/postgres/hybrid_retrieval.py:134-163 | with one list empty, fusion truncates the other |
| `Base64Url.DecodeEncode` | src/erp_ai/infrastructure/postgres_erp/cursor.py:21-26 | the lenient decoder inverts the encoder for every byte string |
| `Base64Url.SegmentIff` | src/erp_ai/infrastructure/erp_trust/assertions.py:30-36 | a segment is accepted exactly when it is the unpadded encoding of a non-empty byte string within the bound |
| `Base64Url.OneSegmentPerBytes` | src/erp_ai/infrastructure/erp_trust/assertions.py:30-36 | accepted segments and byte strings correspond one to one |
| `Cursor.EntitiesTextIff` | src/erp_ai/infrastructure/postgres_erp/cursor.py:88-88 | the digested entity text forgets the order of the entities and nothing else |
| `Cursor.IssuedIsAuthentic` | src/erp_ai/infrastructure/postgres_erp/cursor.py:110-120 | an issued cursor is authentic exactly for a keyring that still has its key |
| `Cursor.DecodeIssued` | src/erp_ai/infrastructure/postgres_erp/cursor.py:99-144 | an issued cursor yields its position exactly while it is alive, under a ring that knows its key, for the bindings it was issued for in any order of entities; otherwise the documented error |
| `Cursor.AcceptedWasIssued` | src/erp_ai/infrastructure/postgres_erp/cursor.py:99-144 | under an ideal MAC every cursor is either one that was issued, for the position it yields, for the same bindings, and not longer ago than its lifetime, or ends in the documented error |
| `Cursor.IssuedIff` | src/erp_ai/infrastructure/postgres_erp/cursor.py:75-97 | a cursor is issued exactly when what varies in it - the escaped key id and filters, both clocks, the page size and both timestamps - takes at most 146 characters |
| `Cursor.KeyIdBound` | src/erp_ai/infrastructure/postgres_erp/cursor.py:75-97 | at full size that is exactly a key id of at most 38 characters, escapes counted |
| `Cursor.KeyIdSuffices` | src/erp_ai/infrastructure/postgres_erp/cursor.py:75-97 | for smaller clocks, timestamps and page sizes 38 characters are enough too |
| `Cursor.EscapedSize` | src/erp_ai/infrastructure/postgres_erp/cursor.py:93-93 | what each character of a key id takes: one, two for the short escapes, six or twelve outside printable ASCII |
| `Cursor.RetiredKeysFound` | src/erp_ai/infrastructure/postgres_erp/cursor.py:115-117 | what an id finds in a keyring is the active key or the previous one that has it |
| `CursorText.ReadWritten` | src/erp_ai/infrastructure/postgres_erp/cursor.py:92-92 | the JSON text of a payload can be read back |
| `CursorText.WriteInjective` | src/erp_ai/infrastructure/postgres_erp/cursor.py:92-92 | so two payloads with the same text are equal |
| `LeaveListing.ListMyLeaveRequests` | src/erp_ai/infrastructure/postgres_erp/providers.py:201-282 | one call: decode the cursor, query, and answer the first rows after the position, signing a cursor exactly when more follow; a cursor that cannot be issued fails the call |
| `LeaveListing.CallIs` | src/erp_ai/infrastructure/postgres_erp/providers.py:217-282 | a call with an issued cursor is rejected exactly when the cursor is late or its key is gone, fails exactly when the database fails or a needed cursor does not fit, and otherwise answers the page at the cursor's position |
| `Pagination.AnswerAscends` | src/erp_ai/infrastructure/postgres_erp/providers.py:44-57 | the query yields the selected rows, newest first, then by id, each once |
| `Pagination.AnswerIs` | src/erp_ai/infrastructure/postgres_erp/providers.py:44-57 | these are exactly the rows of the employee, of the authorised entities, with an accepted status, within both dates, at or before the ceiling and after the position |
| `Pagination.RestOfAnswer` | src/erp_ai/infrastructure/postgres_erp/providers.py:55-57 | what comes after the k-th row is exactly the rest of the answer |
| `Pagination.DeliveredCovers` | src/erp_ai/infrastructure/postgres_erp/providers.py:44-57 | over an unchanging table the positions lead through every remaining row, in order, and stop |
| `LeaveListing.FollowIs` | src/erp_ai/infrastructure/postgres_erp/providers.py:217-282 | following the cursors delivers what following the positions does, as long as no call is stopped, and the beginning of it otherwise, whatever happens to the table |
| `LeaveListing.WholeListing` | src/erp_ai/infrastructure/postgres_erp/providers.py:217-282 | from the first call on over an unchanging table: the listing finishes exactly when every needed call comes in time, meets the key and a working database, and its cursor fits; then it has delivered exactly the rows of the employee and the entities that meet the status and date filters and lie at or before the ceiling, newest first and then by id, each once, in the least number of pages that hold them and at least one |
| `LeaveListing.KeyIdDecides` | src/erp_ai/infrastructure/postgres_erp/providers.py:263-282 | for calls that come in time and are of full size it finishes exactly when every key that signs one of its cursors has an id of at most 38 characters |
| `LeaveListing.ShortKeyIdsFinish` | src/erp_ai/infrastructure/postgres_erp/providers.py:263-282 | key ids of at most 38 characters let every listing finish that is continued in time, at any smaller size too |
| `LeaveListing.LongKeyFails` | src/erp_ai/infrastructure/postgres_erp/providers.py:263-282 | a valid key id with which every listing of more than one page fails on its first page |
| `LeaveListing.NothingAuthorised` | src/erp_ai/infrastructure/postgres_erp/providers.py:214-215 | without authorised entities a listing is one empty page |
| `Pagination.DeliveredAscends` | src/erp_ai/infrastructure/postgres_erp/providers.py:55-57 | with the table changing between pages, delivered keys strictly ascend |
| `LeaveListing.NeverTwice` | src/erp_ai/infrastructure/postgres_erp/providers.py:55-57 | with the table changing between calls no row that keeps its key is delivered twice |
| `LeaveListing.ExactlyOnce` | src/erp_ai/infrastructure/postgres_erp/providers.py:217-282 | a row that keeps its key and matches at every call of a finished listing is delivered exactly once, whatever else changes in it |
| `LeaveListing.DeliveredIsAsked` | src/erp_ai/infrastructure/postgres_erp/providers.py:217-282 | whatever happens to the table, every delivered row was in a table read, is the employee's, meets all filters and the first ceiling, and rows come newest first |
| `LeaveListing.OtherSession` | src/erp_ai/infrastructure/postgres_erp/cursor.py:128-137 | a cursor signed for one session opens in another exactly when it is alive and customer, employee, set of entities, snapshot, filters and page size are the same |
| `Pagination.CheckPage` | src/erp_ai/capabilities/leave/handlers.py:160-186 | the handler's loop accepts exactly pages within the limit, owned, in scope, without repeats and in order |
| `LeaveListing.PagesPass` | src/erp_ai/capabilities/leave/handlers.py:160-186 | every page the provider answers with passes the handler's checks, whatever the cursor |
| `ToolGateway.EvaluateAccess` | src/erp_ai/capabilities/access.py:68-129 | the nested loops return exactly the granted tools, and exactly one kind of denial, with the first reason that applies, for everything withheld |
| `ToolGateway.WithheldIff` | src/erp_ai/capabilities/access.py:94-116 | a tool is withheld for the first of the reasons that its descriptor and the context give, and granted when none applies |
| `ToolGateway.ReservedIff` | src/erp_ai/tools/gateway.py:46-54 | the recursion finds a reserved name exactly when one occurs at any depth |
| `ToolGateway.Execute` | src/erp_ai/tools/gateway.py:188-285 | the handler runs exactly when the call is permitted and its input accepted, once, and the outcome is determined by what it and the checks of its output do; a call succeeds exactly when it is permitted, accepted, answered, verified and recorded; a missing audit and only that is reported as such |
| `Orchestration.ObserveCitations` | src/erp_ai/orchestration/service.py:442-465 | the citations of a result are remembered with their metadata, unless two excerpts of one id disagree |
| `Orchestration.ValidateGrounding` | src/erp_ai/orchestration/service.py:467-504 | an answer passes exactly when its basis, evidence and citations fit the calls that succeeded, and then it carries the remembered citations in its own order |
| `Orchestration.TranscriptFailure` | src/erp_ai/orchestration/service.py:388-426 | a transcript passes exactly when its pairs are valid, its call ids differ and all budgets hold |
| `Orchestration.AuthorizedCatalog` | src/erp_ai/orchestration/service.py:368-386 | the model sees exactly the granted tools that have a handler, by name, with their registered version |
| `Orchestration.RegisteredCount` | src/erp_ai/orchestration/service.py:147-165 | a tool is found as often as the registry lists its name and version |
| `Orchestration.AnswerTurn` | src/erp_ai/orchestration/service.py:223-260 | a final answer succeeds exactly when it is short enough, has the basis and evidence of the one successful call, or of none, cites what that offers, and is recorded; then its text and the citations in its order reach the caller, and otherwise the reason is the first check that fails |
| `Orchestration.MayAnswerIff` | src/erp_ai/orchestration/service.py:223-260 | the checks of the grounding loops amount to this condition on the one call |
| `Orchestration.CallTurn` | src/erp_ai/orchestration/service.py:262-362 | a call continues the run exactly after the routed, permitted tool succeeded and was recorded, within all budgets |
| `Orchestration.ArgumentLimitsIff` | src/erp_ai/orchestration/service.py:57-67 | arguments are within limits exactly when their text, every path into them and the number of those paths are |
| `Orchestration.PairsByConstruction` | src/erp_ai/orchestration/models.py:435-464 | the interaction the orchestrator builds agrees in ids, tool name and version, so it is valid exactly when the payload of the result passes its own validation again |
| `Orchestration.ReadyTurnIsValid` | src/erp_ai/orchestration/models.py:292-323 | every turn the orchestrator builds satisfies the validator of turn requests |
| `Orchestration.ReadyMeansTurnLeft` | src/erp_ai/orchestration/service.py:184-185 | a turn that starts is one of the allowed ones, so the code after the loop is never reached |
| `Orchestration.ExecuteRun` | src/erp_ai/orchestration/service.py:109-366 | at most one handler call, only of the routed and permitted tool; valid turns; no fall-through; the run succeeds exactly when it may start, the model, the handler and the sinks cooperate and the answer is grounded, and then with the text and citations of the last reply |
| `Application.ResolutionReason` | src/erp_ai/application/service.py:140-167 | a resolution passes exactly when the intent is alive, short enough and about this request, user, customer and snapshot |
| `Application.ExecuteRequest` | src/erp_ai/application/service.py:73-138 | every answer is audited once and last; the orchestrator runs only for a cleared request; the caller sees a success exactly when the request is cleared, the run would succeed and both audits are recorded |
| `Application.HandlerOnlyWhenCleared` | src/erp_ai/application/service.py:73-138 | the handler runs at most once, only when bindings match, the snapshot is current, the routed capability is granted and no argument is reserved |
| `Application.SuccessIsAudited` | src/erp_ai/application/service.py:178-196 | a success reaches the caller only if tool, agent and application each recorded a success, once and in that order |
| `Application.SuccessIsGrounded` | src/erp_ai/orchestration/service.py:467-504 | the text is that of the model's last reply; a general success ran no tool and cites nothing; a routed one cites, in the order of the reply, distinct excerpts of its one call unchanged, or nothing for ERP data |
| `Lifecycle.Resources.ClosePools` | src/erp_ai/infrastructure/postgres/production_rag.py:866-868 | pools close in order up to the first failure |
| `Lifecycle.Resources.OpenKnowledgeRouter` | src/erp_ai/infrastructure/postgres/production_rag.py:827-858 | opening and verifying pool by pool either succeeds with all of them held or cleans up after an exception or cancellation |
| `Lifecycle.Resources.OpenAuditRouter` | src/erp_ai/infrastructure/postgres_audit/routing.py:55-94 | all pools open, then all are verified; a failure closes all of them |
| `Lifecycle.Resources.Close` | src/erp_ai/infrastructure/laravel_erp/bundle.py:36-49 | every attempt that the parts of a tree promise is made, whatever fails on the way, a cancellation outweighs errors, and closing once more would close nothing more |
| `Lifecycle.Resources.CloseInTurn` | src/erp_ai/deployment/factory.py:215-232 | an aggregate closes the last resource first, goes on after a failure, and ends as the worst of them |
| `Lifecycle.ClosingEnds` | src/erp_ai/deployment/factory.py:215-232 | closing anything ends cleanly exactly if every attempt of it goes well, with a cancellation exactly if some attempt is cancelled, and otherwise with an error, which above a single router is never a fatal exit |
| `Lifecycle.Resources.Open` | src/erp_ai/infrastructure/postgres/production_rag.py:827-858 | opening a fresh tree ends as its parts say and leaves open exactly what could not be cleaned up, whether closing fails or not |
| `Lifecycle.Resources.OpenLaravel` | src/erp_ai/infrastructure/laravel_erp/bundle.py:27-34 | the client opens first and is closed again when the rest fails, whatever that raises |
| `Lifecycle.Resources.OpenAggregate` | src/erp_ai/deployment/factory.py:198-213 | an aggregate opens once, its resources in turn, and remembers how it ended |
| `Lifecycle.Resources.OpenInTurn` | src/erp_ai/deployment/factory.py:198-213 | resources open in order; when one fails, those before it are closed, and what stays open is what it and their closes left |
| `Lifecycle.Resources.CloseOpened` | src/erp_ai/deployment/factory.py:207-210 | the resources opened before a failure are closed, last first, each attempt made whatever the others raise |
| `Lifecycle.Runtime.Startup` | src/erp_ai/runtime/lifecycle.py:93-113 | startup succeeds exactly when no operation on the way fails; after a failed one exactly what could not be cleaned up is open, and when closing never fails, that is nothing exactly when the faults do not leave a router in a way it does not catch; after a successful one everything is up |
| `Lifecycle.Runtime.Shutdown` | src/erp_ai/runtime/lifecycle.py:115-142 | the three resources are closed once each in reverse order whatever they raise, and when closing succeeds nothing stays open |
| `Lifecycle.LeaksIff` | src/erp_ai/infrastructure/postgres/production_rag.py:849-857 | opening succeeds exactly when nothing fails on the way; a leaf stays open whenever, everything before having gone well, a router with an open or half-open pool meets something other than an exception or a cancellation, and when closing never fails, in no other case |
| `Lifecycle.FatalExitLeaks` | src/erp_ai/infrastructure/postgres/production_rag.py:849-857 | a concrete such leak |
| `Lifecycle.FatalStartupLeaks` | src/erp_ai/infrastructure/postgres/production_rag.py:849-857 | the same through a whole startup |
| `Lifecycle.OnlyFatalLeaks` | src/erp_ai/infrastructure/postgres/production_rag.py:849-857 | when closing never fails, exceptions and cancellations leave nothing open, anywhere in the tree |
| `Lifecycle.UpCloses` | src/erp_ai/runtime/lifecycle.py:127-133 | when closing never fails, closing a tree that is up closes every leaf of it |
| `OwnershipLease.Lease.Claim` | src/erp_ai/runtime/lifecycle.py:45-51 | a claim succeeds exactly for an unowned, uncommitted lease, with a new token |
| `OwnershipLease.Lease.Release` | src/erp_ai/runtime/lifecycle.py:53-57 | a release succeeds exactly for the holder of the token of an uncommitted lease |
| `OwnershipLease.Lease.Commit` | src/erp_ai/runtime/lifecycle.py:59-63 | a commit succeeds exactly for the holder of the token of an uncommitted lease |
| `OwnershipLease.OneCommit` | src/erp_ai/runtime/lifecycle.py:45-63 | in any run of claims, releases and commits at most one commit succeeds, and nothing succeeds after it |
| `Embeddings.EmbedBatch` | src/erp_ai/knowledge/embeddings/service.py:74-98 | a batch yields one vector for each input in id order exactly when the provider answers with one vector for each id, each of the right dimension and digest; otherwise the failure |
| `Embeddings.EmbedAll` | src/erp_ai/knowledge/embeddings/service.py:72-98 | batches of any size amount to embedding chunk after chunk |
| `Embeddings.Materialize` | src/erp_ai/knowledge/embeddings/service.py:58-137 | whatever the provider does, a result names scope, generation and profile of its source, covers each chunk exactly once in id order with a vector the provider gave for it, and is a valid complete set; for an independent provider it does not depend on the batch size |
| `MarkdownSections.Sections` | src/erp_ai/knowledge/sources/markdown.py:186-267 | the token loop fails exactly for streams that are not accepted; otherwise each section holds exactly the text between two neighbouring headings or rules, under the heading path there and the right key, and no text is lost |
| `MarkdownSections.KeysDistinct` | src/erp_ai/knowledge/sources/markdown.py:194-207 | no section is empty, keys are pairwise distinct and only the first can be the preamble |
| `MarkdownSections.PathBoundedIff` | src/erp_ai/knowledge/sources/markdown.py:245-246 | a heading keeps the first entries of the path, one fewer than its level, and adds itself; the path is then no longer than the level exactly for levels of at least one |
| `MarkdownSections.PathWithinLevel` | src/erp_ai/knowledge/sources/markdown.py:242-248 | in a document with such levels the path never outgrows the level of the heading that was read |
| `MarkdownSections.PathJoins` | src/erp_ai/knowledge/sources/markdown.py:245-247 | the text of a path is its headings with one separator between them |
| `MarkdownSections.PaddedDigits` | src/erp_ai/knowledge/sources/markdown.py:194-207 | the number in a section key is written with at least four digits |

## Left out

- HTTP clients, routing, TLS, process control and migrations: plumbing over libraries that are not part of this model.
- PostgreSQL itself: a statement is the change of rows it denotes, a transaction is one atomic step, and isolation and lost connections appear as faults that may strike any attempt. Check constraints on single columns appear as such faults.
- Database catalogue, role and row-security verification: long equality checks against a live server.
- Ed25519, HMAC and SHA-256: parameters; the lemmas that need it name the absence of a collision between the values at hand.
- JSON parsing (the text of a cursor's payload is written out, its reading is a parameter), markdown-it, Unicode normalisation and timestamp formats: their results are taken as given. A JSON number in a cursor is an integer or something else.
- Floating-point rounding, `math.log2` and float32 packing: metrics and vectors are real numbers, and the discount is any positive strictly decreasing function.
- Field-shape validation of the data classes, public and audit field lists, contract digests and hiding in `repr`.
- The provider adapters for models and embeddings: in the pipeline they are the adversary.
- Ranking inside PostgreSQL, and everything of hybrid retrieval but the fusion.
- The draft's content and governance digests: functions of the draft, because lists are not part of the JSON model.
- Aliasing between the lifecycle objects: the tree of resources is a value, and the fields of its routers and aggregates are kept by identity in one object, because one resource may be of any class and Dafny's traits are not used.
- Locks of the lifecycle objects and of the lease: each call is one atomic step.
- Heading ancestry when levels are skipped, and overlap aligned to words: the code does not establish these.
- The order in which a dictionary iterates, except where a sort follows or the first insertion decides.
