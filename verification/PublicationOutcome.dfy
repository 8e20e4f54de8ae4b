/** When a publication or a rollback succeeds, and what one undoes of the other. */
module PublicationOutcome {
  import opened Wrappers
  import opened KnowledgeModels
  import opened Publication
  import opened PublicationSafety

  // --- what can be stored --------------------------------------------------------------------

  /** Two chunks of one generation that no unique index confuses. */
  predicate Apart(a: Chunk, b: Chunk) {
    a.chunkId != b.chunkId && a.citationId != b.citationId
    && (a.documentId != b.documentId || a.ordinal != b.ordinal)
  }

  predicate HasDocument(bundles: seq<Bundle>, id: string) {
    exists i | 0 <= i < |bundles| :: bundles[i].manifest.documentId == id
  }

  /** The content of a plan fits the tables and its declared counts. */
  ghost predicate Storable(plan: Plan) {
    var all := AllChunks(plan.bundles);
    && DistinctDocuments(plan.bundles) && ChunksApart(all) && Homed(all, plan.bundles)
    && plan.manifest.documentCount == |plan.bundles| && plan.manifest.chunkCount == |all|
  }

  ghost predicate DistinctDocuments(bundles: seq<Bundle>) {
    forall i, j | 0 <= i < j < |bundles| :: bundles[i].manifest.documentId != bundles[j].manifest.documentId
  }

  ghost predicate ChunksApart(all: seq<Chunk>) {
    forall i, j | 0 <= i < j < |all| :: Apart(all[i], all[j])
  }

  /** Every chunk belongs to a document of the plan. */
  ghost predicate Homed(all: seq<Chunk>, bundles: seq<Bundle>) {
    forall i | 0 <= i < |all| :: HasDocument(bundles, all[i].documentId)
  }

  ghost predicate NewKeys(t: map<DocumentKey, DocumentRow>, rows: seq<(DocumentKey, DocumentRow)>) {
    && (forall i | 0 <= i < |rows| :: rows[i].0 !in t)
    && (forall i, j | 0 <= i < j < |rows| :: rows[i].0 != rows[j].0)
  }

  predicate IsKey(rows: seq<(DocumentKey, DocumentRow)>, k: DocumentKey) {
    exists i | 0 <= i < |rows| :: rows[i].0 == k
  }

  lemma {:induction false} DocumentsInsertIff(t: map<DocumentKey, DocumentRow>, rows: seq<(DocumentKey, DocumentRow)>)
    ensures var r := InsertDocuments(t, rows);
      && (r.Ok? <==> NewKeys(t, rows))
      && (r.Ok? ==> forall k :: k in r.value <==> k in t || IsKey(rows, k))
  {
    if rows != [] {
      var n := |rows| - 1;
      var init := rows[..n];
      DocumentsInsertIff(t, init);
      assert forall i | 0 <= i < n :: init[i] == rows[i];
      KeySnoc(init, rows[n]);
      assert init + [rows[n]] == rows;
      NewKeysSnoc(t, init, rows[n]);
      hide NewKeys, IsKey;
    }
  }

  lemma KeySnoc(init: seq<(DocumentKey, DocumentRow)>, last: (DocumentKey, DocumentRow))
    ensures forall k :: IsKey(init + [last], k) <==> IsKey(init, k) || k == last.0
  {
    var rows := init + [last];
    assert forall i | 0 <= i < |init| :: rows[i] == init[i];
    assert rows[|init|] == last;
    forall k | IsKey(init, k)
      ensures IsKey(rows, k)
    {
      var i :| 0 <= i < |init| && init[i].0 == k;
      assert rows[i].0 == k;
    }
  }

  lemma NewKeysSnoc(t: map<DocumentKey, DocumentRow>, init: seq<(DocumentKey, DocumentRow)>,
                    last: (DocumentKey, DocumentRow))
    ensures NewKeys(t, init + [last]) <==> NewKeys(t, init) && last.0 !in t && !IsKey(init, last.0)
  {
    var rows := init + [last];
    assert forall i | 0 <= i < |init| :: rows[i] == init[i];
    assert rows[|init|] == last;
  }

  predicate RowsApart(a: (ChunkKey, ChunkRow), b: (ChunkKey, ChunkRow)) {
    && a.0 != b.0 && a.1.citationId != b.1.citationId
    && (a.1.documentId != b.1.documentId || a.1.ordinal != b.1.ordinal)
  }

  /** All rows are stored, nothing else of generation `g` is. */
  ghost predicate HoldsRows(t: map<ChunkKey, ChunkRow>, rows: seq<(ChunkKey, ChunkRow)>, g: GenerationKey) {
    && (forall i | 0 <= i < |rows| :: rows[i].0 in t && t[rows[i].0] == rows[i].1)
    && (forall k | k in t && k.generation == g :: exists i | 0 <= i < |rows| :: rows[i].0 == k)
  }

  ghost predicate Insertable(documents: map<DocumentKey, DocumentRow>, rows: seq<(ChunkKey, ChunkRow)>) {
    && (forall i | 0 <= i < |rows| :: DocumentKey(rows[i].0.generation, rows[i].1.documentId) in documents)
    && (forall i, j | 0 <= i < j < |rows| :: RowsApart(rows[i], rows[j]))
  }

  lemma CollidesIff(t: map<ChunkKey, ChunkRow>, rows: seq<(ChunkKey, ChunkRow)>, g: GenerationKey,
                    last: (ChunkKey, ChunkRow))
    requires HoldsRows(t, rows, g) && last.0.generation == g
    requires forall i | 0 <= i < |rows| :: rows[i].0.generation == g
    ensures Collides(t, last.0, last.1) <==> exists i | 0 <= i < |rows| :: !RowsApart(rows[i], last)
  {
    if i :| 0 <= i < |rows| && !RowsApart(rows[i], last) {
      assert rows[i].0 in t;
    }
    if Collides(t, last.0, last.1) {
      var k :| k in t && k.generation == g
        && (k == last.0 || t[k].citationId == last.1.citationId
            || (t[k].documentId == last.1.documentId && t[k].ordinal == last.1.ordinal));
      var i :| 0 <= i < |rows| && rows[i].0 == k;
      assert !RowsApart(rows[i], last);
    }
  }

  lemma InsertableSnoc(documents: map<DocumentKey, DocumentRow>, init: seq<(ChunkKey, ChunkRow)>,
                       last: (ChunkKey, ChunkRow))
    ensures Insertable(documents, init + [last]) <==>
      && Insertable(documents, init) && DocumentKey(last.0.generation, last.1.documentId) in documents
      && !(exists i | 0 <= i < |init| :: !RowsApart(init[i], last))
  {
    hide RowsApart;
    var rows := init + [last];
    assert forall i | 0 <= i < |init| :: rows[i] == init[i];
    assert rows[|init|] == last;
  }

  lemma HoldsSnoc(t: map<ChunkKey, ChunkRow>, init: seq<(ChunkKey, ChunkRow)>, last: (ChunkKey, ChunkRow),
                  g: GenerationKey)
    requires HoldsRows(t, init, g) && last.0 !in t
    ensures HoldsRows(t[last.0 := last.1], init + [last], g)
  {
    var rows := init + [last];
    var r := t[last.0 := last.1];
    assert forall i | 0 <= i < |init| :: rows[i] == init[i];
    assert rows[|init|] == last;
    forall k | k in r && k.generation == g
      ensures exists i | 0 <= i < |rows| :: rows[i].0 == k
    {
      if k == last.0 {
        assert rows[|init|].0 == k;
      } else {
        var i :| 0 <= i < |init| && init[i].0 == k;
        assert rows[i].0 == k;
      }
    }
  }

  lemma {:induction false} ChunksInsertIff(documents: map<DocumentKey, DocumentRow>, t: map<ChunkKey, ChunkRow>,
                                           rows: seq<(ChunkKey, ChunkRow)>, g: GenerationKey)
    requires forall i | 0 <= i < |rows| :: rows[i].0.generation == g
    requires forall k | k in t :: k.generation != g
    ensures var r := InsertChunks(documents, t, rows);
      && (r.Ok? <==> Insertable(documents, rows))
      && (r.Ok? ==> HoldsRows(r.value, rows, g))
  {
    if rows == [] {
    } else {
      var n := |rows| - 1;
      var init, last := rows[..n], rows[n];
      assert forall i | 0 <= i < n :: init[i] == rows[i];
      assert init + [last] == rows;
      ChunksInsertIff(documents, t, init, g);
      InsertableSnoc(documents, init, last);
      ChunksInsertLast(documents, t, rows);
      hide InsertChunks, Insertable, HoldsRows, Collides, RowsApart;
      var before := InsertChunks(documents, t, init);
      if before.Ok? {
        CollidesIff(before.value, init, g, last);
        if InsertChunks(documents, t, rows).Ok? {
          HoldsSnoc(before.value, init, last, g);
        }
      }
    }
  }

  lemma ChunksInsertLast(documents: map<DocumentKey, DocumentRow>, t: map<ChunkKey, ChunkRow>,
                         rows: seq<(ChunkKey, ChunkRow)>)
    requires rows != []
    ensures var before := InsertChunks(documents, t, rows[..|rows| - 1]);
      var r := InsertChunks(documents, t, rows);
      var (key, row) := rows[|rows| - 1];
      && (r.Ok? <==> before.Ok? && !Collides(before.value, key, row)
                     && DocumentKey(key.generation, row.documentId) in documents)
      && (r.Ok? ==> key !in before.value && r.value == before.value[key := row])
  {
  }

  // --- the exact condition -------------------------------------------------------------------

  lemma DocumentsStorable(t: map<DocumentKey, DocumentRow>, d: Digests, g: GenerationKey, bundles: seq<Bundle>)
    requires forall k | k in t :: k.generation != g
    ensures var r := InsertDocuments(t, DocumentsOf(d, g, bundles));
      && (r.Ok? <==> DistinctDocuments(bundles))
      && (r.Ok? ==> forall id :: DocumentKey(g, id) in r.value <==> HasDocument(bundles, id))
  {
    var rows := DocumentsOf(d, g, bundles);
    DocumentRowsOwned(d, g, bundles);
    DocumentsInsertIff(t, rows);
    assert forall i | 0 <= i < |rows| :: rows[i].0 == DocumentKey(g, bundles[i].manifest.documentId);
    hide InsertDocuments, DocumentsOf;
    forall id
      ensures IsKey(rows, DocumentKey(g, id)) <==> HasDocument(bundles, id)
    {
      if i :| 0 <= i < |bundles| && bundles[i].manifest.documentId == id {
        assert rows[i].0 == DocumentKey(g, id);
      }
    }
  }

  lemma ChunksStorable(documents: map<DocumentKey, DocumentRow>, t: map<ChunkKey, ChunkRow>, d: Digests,
                       g: GenerationKey, all: seq<Chunk>, bundles: seq<Bundle>)
    requires forall k | k in t :: k.generation != g
    requires forall id :: DocumentKey(g, id) in documents <==> HasDocument(bundles, id)
    ensures InsertChunks(documents, t, ChunkRowsOf(d, g, all)).Ok? <==> ChunksApart(all) && Homed(all, bundles)
  {
    var rows := ChunkRowsOf(d, g, all);
    ChunkRowsOwned(d, g, all);
    assert forall i | 0 <= i < |rows| :: rows[i] == ChunkOf(d, g, all[i]);
    ChunksInsertIff(documents, t, rows, g);
    hide InsertChunks, ChunkRowsOf, HasDocument;
    forall i, j | 0 <= i < j < |rows|
      ensures RowsApart(rows[i], rows[j]) <==> Apart(all[i], all[j])
    {
    }
    hide RowsApart, Apart;
  }

  lemma NothingStored(t: Tables, g: GenerationKey)
    requires ContentComplete(t) && g !in t.generations
    ensures forall k | k in t.documents :: k.generation != g
    ensures forall k | k in t.chunks :: k.generation != g
  {
    hide DocumentCount, ChunkCount;
  }

  /** A generation is stored exactly when its id is new and its content fits. */
  lemma StoredIff(t: Tables, d: Digests, plan: Plan)
    requires ContentComplete(t)
    ensures StoreGeneration(t, d, plan).Ok? <==>
      && GenerationKey(plan.manifest.scope.customer, plan.manifest.generation) !in t.generations
      && Storable(plan)
  {
    var g := GenerationKey(plan.manifest.scope.customer, plan.manifest.generation);
    if g !in t.generations {
      NothingStored(t, g);
      EmptyCounts(t, g);
      DocumentsStorable(t.documents, d, g, plan.bundles);
      var documents := InsertDocuments(t.documents, DocumentsOf(d, g, plan.bundles));
      if documents.Ok? {
        DocumentsHold(t.documents, d, g, plan.bundles);
        ChunksStorable(documents.value, t.chunks, d, g, AllChunks(plan.bundles), plan.bundles);
        if InsertChunks(documents.value, t.chunks, ChunkRowsOf(d, g, AllChunks(plan.bundles))).Ok? {
          ChunksHold(documents.value, t.chunks, d, g, AllChunks(plan.bundles));
        }
      }
      hide InsertDocuments, InsertChunks, DocumentsOf, ChunkRowsOf, AllChunks, DocumentCount, ChunkCount,
        DistinctDocuments, ChunksApart, Homed, ContentComplete, HasDocument, DocumentOf, ChunkOf;
    }
  }

  predicate OutboxFree(t: Tables, row: OutboxRow) {
    forall i | 0 <= i < |t.outbox| && t.outbox[i].customer == row.customer :: t.outbox[i].outboxId != row.outboxId
  }

  /** In a sound state a new operation has no audit row yet. */
  lemma OutboxTakenIff(t: Tables, row: OutboxRow)
    requires AuditIsBijective(t) && KeyOf(row) !in t.operations
    ensures OutboxTaken(t.outbox, row) <==> !OutboxFree(t, row)
  {
  }

  /** The publication of a new operation succeeds exactly when the database is the customer's,
      the pointer is the expected one, and the generation, its content and the audit row are new. */
  lemma PublishSucceedsIff(t: Tables, d: Digests, plan: Plan, expected: Option<Uuid>)
    requires Sound(t) && EventMatches(plan)
    requires OperationKey(plan.manifest.scope.customer, plan.context.operationId) !in t.operations
    ensures PublishStatements(t, d, plan, expected).result.Ok? <==>
      && Identified(t, plan.manifest.scope.customer)
      && ActiveId(t, plan.manifest.scope) == expected
      && GenerationKey(plan.manifest.scope.customer, plan.manifest.generation) !in t.generations
      && Storable(plan) && OutboxFree(t, PublishRow(plan, expected))
  {
    StoredIff(t, d, plan);
    OutboxTakenIff(t, PublishRow(plan, expected));
    if StoreGeneration(t, d, plan).Ok? {
      StoreParts(t, d, plan);
      ActivationParts(StoreGeneration(t, d, plan).value, PublishOutcome(plan, expected), PublishRow(plan, expected));
    }
    hide StoreGeneration, Switch, Storable, OutboxTaken, OutboxFree, Sound, InsertDocuments, InsertChunks,
      DocumentCount, ChunkCount, AllChunks, DocumentsOf, ChunkRowsOf, KeyOf;
  }

  lemma RollbackSucceedsIff(t: Tables, request: RollbackRequest, expected: Uuid)
    requires Sound(t)
    requires OperationKey(request.scope.customer, request.context.operationId) !in t.operations
    ensures RollbackStatements(t, request, expected).result.Ok? <==>
      && Identified(t, request.scope.customer)
      && ActiveId(t, request.scope) == Some(expected)
      && GenerationKey(request.scope.customer, request.target) in t.generations
      && t.generations[GenerationKey(request.scope.customer, request.target)].namespace == request.scope.namespace
      && t.generations[GenerationKey(request.scope.customer, request.target)].status == Retired
      && OutboxFree(t, RollbackRow(request, Some(expected), ""))
  {
    if CanReturnTo(t, request.scope, request.target) {
      var digest := t.generations[GenerationKey(request.scope.customer, request.target)].digest;
      var row := RollbackRow(request, Some(expected), digest);
      OutboxTakenIff(t, row);
      assert OutboxFree(t, row) <==> OutboxFree(t, RollbackRow(request, Some(expected), ""));
      ActivationParts(t, RollbackOutcome(request, Some(expected), digest), row);
    }
    hide Switch, OutboxTaken, OutboxFree, Sound;
  }

  // --- publishing, then rolling back ---------------------------------------------------------

  /** Publishing over an active generation and rolling back to it restores the pointer and every
      earlier generation, keeps the new one as retired, and leaves two audit rows. */
  lemma RoundTrip(t: Tables, d: Digests, plan: Plan, request: RollbackRequest, before: Uuid)
    requires Sound(t) && EventMatches(plan)
    requires OperationKey(plan.manifest.scope.customer, plan.context.operationId) !in t.operations
    requires PublishStatements(t, d, plan, Some(before)).result.Ok?
    requires request.scope == plan.manifest.scope && request.target == before
    requires request.context.operationId != plan.context.operationId && request.outboxId != plan.event.outboxId
    requires OperationKey(request.scope.customer, request.context.operationId) !in t.operations
    requires OutboxFree(t, RollbackRow(request, Some(plan.manifest.generation), ""))
    ensures var p := PublishStatements(t, d, plan, Some(before)).tables;
      var back := RollbackStatements(p, request, plan.manifest.generation);
      var g := GenerationKey(plan.manifest.scope.customer, plan.manifest.generation);
      && back.result.Ok? && Sound(back.tables)
      && back.tables.active == t.active
      && back.tables.generations.Keys == t.generations.Keys + {g}
      && back.tables.generations[g].status == Retired
      && (forall k | k in t.generations :: back.tables.generations[k] == t.generations[k])
      && |back.tables.outbox| == |t.outbox| + 2
  {
    var scope := plan.manifest.scope;
    var next := plan.manifest.generation;
    var p := PublishStatements(t, d, plan, Some(before)).tables;
    hide *;
    Published(t, d, plan, before);
    BackSucceeds(t, p, plan, request, before);
    RollbackKeeps(p, request, next);
    RollbackSteps(p, request, next);
    OldDigest(t, p, plan, before);
    var digest := t.active[scope].digest;
    var outcome, row := RollbackOutcome(request, Some(next), digest), RollbackRow(request, Some(next), digest);
    RollbackFields(request, Some(next), digest);
    ActivationParts(p, outcome, row);
    SwitchStatuses(p, scope, Some(next), before, digest);
    Restored(t, p, Switch(p, scope, Some(next), before, digest), plan, before);
  }

  lemma RollbackFields(request: RollbackRequest, current: Option<Uuid>, digest: string)
    ensures var o := RollbackOutcome(request, current, digest);
      && o.scope == request.scope && o.previous == current && o.generation == request.target && o.digest == digest
  {
  }

  lemma OldDigest(t: Tables, p: Tables, plan: Plan, before: Uuid)
    requires ActiveAfter(t, p, plan, before)
    ensures var scope := plan.manifest.scope;
      var was := GenerationKey(scope.customer, before);
      && scope in t.active && was in p.generations && p.generations[was].digest == t.active[scope].digest
      && |p.outbox| == |t.outbox| + 1
  {
  }

  lemma Restored(t: Tables, p: Tables, s: Tables, plan: Plan, before: Uuid)
    requires ActiveAfter(t, p, plan, before)
    requires var scope := plan.manifest.scope;
      && s.active == p.active[scope := Pointer(before, t.active[scope].digest)]
      && Switched(p.generations, s.generations, scope, Some(plan.manifest.generation), before)
    ensures var g := GenerationKey(plan.manifest.scope.customer, plan.manifest.generation);
      && s.active == t.active && s.generations.Keys == t.generations.Keys + {g}
      && s.generations[g].status == Retired
      && forall k | k in t.generations :: s.generations[k] == t.generations[k]
  {
    assert s.active == t.active;
  }

  /** The tables right after a publication over `before`. */
  lemma Published(t: Tables, d: Digests, plan: Plan, before: Uuid)
    requires Sound(t) && EventMatches(plan)
    requires OperationKey(plan.manifest.scope.customer, plan.context.operationId) !in t.operations
    requires PublishStatements(t, d, plan, Some(before)).result.Ok?
    ensures ActiveAfter(t, PublishStatements(t, d, plan, Some(before)).tables, plan, before)
    ensures Sound(PublishStatements(t, d, plan, Some(before)).tables)
  {
    var scope := plan.manifest.scope;
    var outcome, row := PublishOutcome(plan, Some(before)), PublishRow(plan, Some(before));
    assert PointersSound(t) && Identified(t, scope.customer);
    hide *;
    PublishSteps(t, d, plan, Some(before));
    PublishKeeps(t, d, plan, Some(before));
    StoreParts(t, d, plan);
    PublishFields(plan, Some(before));
    var stored := StoreGeneration(t, d, plan).value;
    ActivationParts(stored, outcome, row);
    SwitchStatuses(stored, scope, Some(before), plan.manifest.generation, plan.manifest.digest);
    var s := Switch(stored, scope, Some(before), plan.manifest.generation, plan.manifest.digest);
    PointerAt(t, scope, before);
    AfterFrom(t, stored, s, PublishStatements(t, d, plan, Some(before)).tables, plan, before);
  }

  lemma PublishFields(plan: Plan, current: Option<Uuid>)
    ensures var o := PublishOutcome(plan, current);
      && o.scope == plan.manifest.scope && o.previous == current && o.generation == plan.manifest.generation
      && o.digest == plan.manifest.digest && o.operationId == plan.context.operationId
  {
  }

  lemma PointerAt(t: Tables, scope: Scope, before: Uuid)
    requires PointersSound(t) && ActiveId(t, scope) == Some(before)
    ensures var was := GenerationKey(scope.customer, before);
      && scope in t.active && t.active[scope].generation == before
      && was in t.generations && t.generations[was].namespace == scope.namespace
      && t.generations[was].status == Active && t.generations[was].digest == t.active[scope].digest
  {
  }

  lemma AfterFrom(t: Tables, stored: Tables, s: Tables, p: Tables, plan: Plan, before: Uuid)
    requires var scope := plan.manifest.scope;
      var g, was := GenerationKey(scope.customer, plan.manifest.generation), GenerationKey(scope.customer, before);
      && Identified(t, scope.customer) && p.identity == t.identity
      && scope in t.active && t.active[scope].generation == before
      && was in t.generations && t.generations[was].namespace == scope.namespace
      && t.generations[was].status == Active && t.generations[was].digest == t.active[scope].digest
      && g !in t.generations && g in stored.generations
      && stored.generations == t.generations[g := stored.generations[g]]
      && p.generations == s.generations
      && Switched(stored.generations, s.generations, scope, Some(before), plan.manifest.generation)
      && p.active == t.active[scope := Pointer(plan.manifest.generation, plan.manifest.digest)]
      && p.operations == t.operations[OperationKey(scope.customer, plan.context.operationId)
                                        := PublishOutcome(plan, Some(before))]
      && p.outbox == t.outbox + [PublishRow(plan, Some(before))]
    ensures ActiveAfter(t, p, plan, before)
  {
    hide PublishRow;
  }

  ghost predicate ActiveAfter(t: Tables, p: Tables, plan: Plan, before: Uuid) {
    var scope := plan.manifest.scope;
    var g, was := GenerationKey(scope.customer, plan.manifest.generation), GenerationKey(scope.customer, before);
    && Identified(p, scope.customer)
    && scope in t.active && t.active[scope].generation == before
    && g !in t.generations && was in t.generations && t.generations[was].namespace == scope.namespace
    && t.generations[was].status == Active && t.generations[was].digest == t.active[scope].digest
    && p.active == t.active[scope := Pointer(plan.manifest.generation, plan.manifest.digest)]
    && p.generations.Keys == t.generations.Keys + {g}
    && (forall k | k in t.generations ::
          p.generations[k] == if k == was then t.generations[k].(status := Retired) else t.generations[k])
    && p.operations.Keys == t.operations.Keys + {OperationKey(scope.customer, plan.context.operationId)}
    && p.outbox == t.outbox + [PublishRow(plan, Some(before))]
  }

  lemma BackSucceeds(t: Tables, p: Tables, plan: Plan, request: RollbackRequest, before: Uuid)
    requires Sound(p) && ActiveAfter(t, p, plan, before)
    requires request.scope == plan.manifest.scope && request.target == before
    requires request.context.operationId != plan.context.operationId && request.outboxId != plan.event.outboxId
    requires OperationKey(request.scope.customer, request.context.operationId) !in t.operations
    requires OutboxFree(t, RollbackRow(request, Some(plan.manifest.generation), ""))
    ensures RollbackStatements(p, request, plan.manifest.generation).result.Ok?
    ensures OperationKey(request.scope.customer, request.context.operationId) !in p.operations
  {
    var row := RollbackRow(request, Some(plan.manifest.generation), "");
    StillFree(t, p, plan, before, row);
    RollbackSucceedsIff(p, request, plan.manifest.generation);
    hide RollbackStatements, Sound, OutboxFree;
  }

  lemma StillFree(t: Tables, p: Tables, plan: Plan, before: Uuid, row: OutboxRow)
    requires ActiveAfter(t, p, plan, before) && row.outboxId != plan.event.outboxId && OutboxFree(t, row)
    ensures OutboxFree(p, row)
  {
    forall i | 0 <= i < |p.outbox| && p.outbox[i].customer == row.customer
      ensures p.outbox[i].outboxId != row.outboxId
    {
      if i < |t.outbox| {
        assert p.outbox[i] == t.outbox[i];
      }
    }
  }
}
