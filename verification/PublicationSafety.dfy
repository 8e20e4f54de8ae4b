/** What every committed publication and rollback keeps true of the tables. */
module PublicationSafety {
  import opened Wrappers
  import opened KnowledgeModels
  import opened Publication

  // --- the invariant -------------------------------------------------------------------------

  /** Every pointer names an active generation of its own scope, with that generation's digest. */
  ghost predicate PointersSound(t: Tables) {
    forall scope | scope in t.active ::
      var g := GenerationKey(scope.customer, t.active[scope].generation);
      && g in t.generations && t.generations[g].namespace == scope.namespace
      && t.generations[g].status == Active && t.generations[g].digest == t.active[scope].digest
  }

  /** Every active generation is the one its scope points at, so a scope has at most one. */
  ghost predicate OnlyPointed(t: Tables) {
    forall g | g in t.generations && t.generations[g].status == Active ::
      var scope := Scope(g.customer, t.generations[g].namespace);
      scope in t.active && t.active[scope].generation == g.id
  }

  ghost predicate NoCandidates(t: Tables) {
    forall g | g in t.generations :: t.generations[g].status != Candidate
  }

  function ScopeOf(row: OutboxRow): Scope {
    Scope(row.customer, row.namespace)
  }

  /** The generation that replaying the audit rows of a scope leaves active. */
  function ChainEnd(outbox: seq<OutboxRow>, scope: Scope): Option<Uuid> {
    if outbox == [] then None
    else
      var last := outbox[|outbox| - 1];
      if ScopeOf(last) == scope then Some(last.activated) else ChainEnd(outbox[..|outbox| - 1], scope)
  }

  /** Each audit row continues the chain of its scope and really changes the generation. */
  ghost predicate Chained(outbox: seq<OutboxRow>) {
    forall i | 0 <= i < |outbox| ::
      && outbox[i].previous == ChainEnd(outbox[..i], ScopeOf(outbox[i]))
      && outbox[i].previous != Some(outbox[i].activated)
  }

  ghost predicate PointersEndChains(t: Tables) {
    forall scope :: ActiveId(t, scope) == ChainEnd(t.outbox, scope)
  }

  function KeyOf(row: OutboxRow): OperationKey {
    OperationKey(row.customer, row.operationId)
  }

  /** The audit row and the stored result tell the same story. */
  predicate SameStory(row: OutboxRow, outcome: Outcome) {
    && row.customer == outcome.scope.customer && row.namespace == outcome.scope.namespace
    && row.operationId == outcome.operationId && row.previous == outcome.previous
    && row.activated == outcome.generation && row.digest == outcome.digest
    && (row.action == Publish <==> outcome.Published?)
  }

  predicate Logged(outbox: seq<OutboxRow>, key: OperationKey) {
    exists i | 0 <= i < |outbox| :: KeyOf(outbox[i]) == key
  }

  lemma LoggedSnoc(outbox: seq<OutboxRow>, row: OutboxRow, key: OperationKey)
    ensures Logged(outbox + [row], key) <==> Logged(outbox, key) || KeyOf(row) == key
  {
    hide KeyOf;
    var longer := outbox + [row];
    if Logged(outbox, key) {
      var i :| 0 <= i < |outbox| && KeyOf(outbox[i]) == key;
      assert longer[i] == outbox[i];
    }
    if KeyOf(row) == key {
      assert longer[|outbox|] == row;
    }
  }

  /** Every audit row belongs to one stored operation, no two to the same, and every stored
      operation has its row. */
  ghost predicate AuditIsBijective(t: Tables) {
    && (forall i | 0 <= i < |t.outbox| ::
          KeyOf(t.outbox[i]) in t.operations && SameStory(t.outbox[i], t.operations[KeyOf(t.outbox[i])]))
    && (forall i, j | 0 <= i < j < |t.outbox| :: KeyOf(t.outbox[i]) != KeyOf(t.outbox[j]))
    && (forall key | key in t.operations :: Logged(t.outbox, key))
  }

  /** No row without its generation or document, and as many rows as the generation declares. */
  ghost predicate ContentComplete(t: Tables) {
    && (forall k | k in t.documents :: k.generation in t.generations)
    && (forall k | k in t.chunks :: DocumentKey(k.generation, t.chunks[k].documentId) in t.documents)
    && (forall g | g in t.generations ::
          DocumentCount(t.documents, g) == t.generations[g].documentCount
          && ChunkCount(t.chunks, g) == t.generations[g].chunkCount)
  }

  ghost predicate Sound(t: Tables) {
    && PointersSound(t) && OnlyPointed(t) && NoCandidates(t)
    && Chained(t.outbox) && PointersEndChains(t) && AuditIsBijective(t) && ContentComplete(t)
  }

  // --- switching the active generation -------------------------------------------------------

  /** `next` may become active in `scope`: it exists, belongs there and is not active yet. */
  ghost predicate MayActivate(t: Tables, scope: Scope, next: Uuid, digest: string) {
    var g := GenerationKey(scope.customer, next);
    && g in t.generations && t.generations[g].namespace == scope.namespace
    && t.generations[g].digest == digest && t.generations[g].status != Active
    && forall k | k in t.generations && t.generations[k].status == Candidate :: k == g
  }

  lemma SwitchKeeps(t: Tables, scope: Scope, next: Uuid, digest: string)
    requires PointersSound(t) && OnlyPointed(t) && MayActivate(t, scope, next, digest)
    ensures var s := Switch(t, scope, ActiveId(t, scope), next, digest);
      PointersSound(s) && OnlyPointed(s) && NoCandidates(s)
  {
    SwitchStatuses(t, scope, ActiveId(t, scope), next, digest);
    hide Switch, SetStatus;
  }

  /** Only statuses change: `next` is active, what was current is retired. */
  ghost predicate Switched(was: map<GenerationKey, Generation>, now: map<GenerationKey, Generation>, scope: Scope,
                           current: Option<Uuid>, next: Uuid) {
    && now.Keys == was.Keys
    && forall k | k in was :: now[k] == was[k].(status :=
         if k == GenerationKey(scope.customer, next) then Active
         else if current == Some(k.id) && k.customer == scope.customer then Retired
         else was[k].status)
  }

  lemma SwitchStatuses(t: Tables, scope: Scope, current: Option<Uuid>, next: Uuid, digest: string)
    requires GenerationKey(scope.customer, next) in t.generations
    ensures var s := Switch(t, scope, current, next, digest);
      && s.active == t.active[scope := Pointer(next, digest)]
      && Switched(t.generations, s.generations, scope, current, next)
  {
  }

  lemma SwitchKeepsContent(t: Tables, scope: Scope, current: Option<Uuid>, next: Uuid, digest: string)
    requires ContentComplete(t)
    ensures ContentComplete(Switch(t, scope, current, next, digest))
  {
    hide DocumentCount, ChunkCount;
    var s := Switch(t, scope, current, next, digest);
    assert s.generations.Keys == t.generations.Keys;
  }

  // --- recording the result ------------------------------------------------------------------

  lemma ChainSnoc(outbox: seq<OutboxRow>, row: OutboxRow, scope: Scope)
    ensures ChainEnd(outbox + [row], scope) == if ScopeOf(row) == scope then Some(row.activated)
                                               else ChainEnd(outbox, scope)
  {
    assert (outbox + [row])[..|outbox|] == outbox;
  }

  lemma ChainedSnoc(outbox: seq<OutboxRow>, row: OutboxRow)
    requires Chained(outbox) && row.previous == ChainEnd(outbox, ScopeOf(row))
    requires row.previous != Some(row.activated)
    ensures Chained(outbox + [row])
  {
    var longer := outbox + [row];
    forall i | 0 <= i < |longer|
      ensures longer[i].previous == ChainEnd(longer[..i], ScopeOf(longer[i]))
      ensures longer[i].previous != Some(longer[i].activated)
    {
      assert longer[..i] == if i < |outbox| then outbox[..i] else outbox;
    }
  }

  lemma PersistKeepsAudit(t: Tables, outcome: Outcome, row: OutboxRow)
    requires AuditIsBijective(t) && SameStory(row, outcome) && Persist(t, outcome, row).result.Ok?
    ensures AuditIsBijective(Persist(t, outcome, row).tables)
  {
    var s := Persist(t, outcome, row).tables;
    var key := KeyOf(row);
    assert s.outbox == t.outbox + [row] && s.operations == t.operations[key := outcome] && key !in t.operations;
    hide SameStory, KeyOf, Persist, Logged;
    forall k | k in s.operations
      ensures Logged(s.outbox, k)
    {
      LoggedSnoc(t.outbox, row, k);
    }
  }

  lemma PointersOnly(s: Tables, u: Tables)
    requires PointersSound(s) && OnlyPointed(s) && NoCandidates(s)
    requires u.generations == s.generations && u.active == s.active
    ensures PointersSound(u) && OnlyPointed(u) && NoCandidates(u)
  {
  }

  lemma AuditOnly(t: Tables, u: Tables)
    requires AuditIsBijective(t) && u.operations == t.operations && u.outbox == t.outbox
    ensures AuditIsBijective(u)
  {
  }

  /** The pointer that the new audit row moves is again the end of its chain. */
  lemma EndsKeep(t: Tables, u: Tables, row: OutboxRow, pointer: Pointer)
    requires PointersEndChains(t) && u.outbox == t.outbox + [row]
    requires u.active == t.active[ScopeOf(row) := pointer] && pointer.generation == row.activated
    ensures PointersEndChains(u)
  {
    forall other
      ensures ActiveId(u, other) == ChainEnd(u.outbox, other)
    {
      ChainSnoc(t.outbox, row, other);
    }
  }

  /** What an activation and its record do, table by table. */
  lemma ActivationParts(t: Tables, outcome: Outcome, row: OutboxRow)
    ensures var s := Switch(t, outcome.scope, outcome.previous, outcome.generation, outcome.digest);
      && s.documents == t.documents && s.chunks == t.chunks && s.operations == t.operations && s.outbox == t.outbox
      && s.identity == t.identity
      && s.active == t.active[outcome.scope := Pointer(outcome.generation, outcome.digest)]
      && (Persist(s, outcome, row).result.Ok? ==>
            var u := Persist(s, outcome, row).tables;
            && u.generations == s.generations && u.active == s.active && u.documents == s.documents
            && u.chunks == s.chunks && u.outbox == s.outbox + [row] && u.identity == s.identity
            && u.operations == s.operations[OperationKey(outcome.scope.customer, outcome.operationId) := outcome])
  {
  }

  lemma ReallyMoves(t: Tables, scope: Scope, next: Uuid, digest: string)
    requires PointersSound(t) && MayActivate(t, scope, next, digest)
    ensures ActiveId(t, scope) != Some(next)
  {
  }

  lemma StoryScope(row: OutboxRow, outcome: Outcome)
    requires SameStory(row, outcome)
    ensures ScopeOf(row) == outcome.scope && row.previous == outcome.previous && row.activated == outcome.generation
  {
  }

  /** One activation, from the old pointer to the recorded result. */
  lemma ActivationKeeps(t: Tables, outcome: Outcome, row: OutboxRow)
    requires PointersSound(t) && OnlyPointed(t) && ContentComplete(t)
    requires Chained(t.outbox) && PointersEndChains(t) && AuditIsBijective(t)
    requires MayActivate(t, outcome.scope, outcome.generation, outcome.digest)
    requires SameStory(row, outcome) && outcome.previous == ActiveId(t, outcome.scope)
    requires var s := Switch(t, outcome.scope, outcome.previous, outcome.generation, outcome.digest);
      Persist(s, outcome, row).result.Ok?
    ensures var s := Switch(t, outcome.scope, outcome.previous, outcome.generation, outcome.digest);
      Sound(Persist(s, outcome, row).tables)
  {
    var scope := outcome.scope;
    var s := Switch(t, scope, outcome.previous, outcome.generation, outcome.digest);
    var u := Persist(s, outcome, row).tables;
    ReallyMoves(t, scope, outcome.generation, outcome.digest);
    ActivationParts(t, outcome, row);
    StoryScope(row, outcome);
    assert ActiveId(t, scope) == ChainEnd(t.outbox, scope);
    hide MayActivate, Switch, Persist, PointersSound, OnlyPointed, NoCandidates, Chained, PointersEndChains,
      AuditIsBijective, ContentComplete, SameStory, ChainEnd, ActiveId, ScopeOf;
    SwitchKeeps(t, scope, outcome.generation, outcome.digest);
    SwitchKeepsContent(t, scope, outcome.previous, outcome.generation, outcome.digest);
    AuditOnly(t, s);
    PersistKeepsAudit(s, outcome, row);
    ChainedSnoc(t.outbox, row);
    EndsKeep(t, u, row, Pointer(outcome.generation, outcome.digest));
    PointersOnly(s, u);
    ContentOnly(s, u);
  }

  lemma ContentOnly(s: Tables, u: Tables)
    requires ContentComplete(s)
    requires u.documents == s.documents && u.chunks == s.chunks && u.generations == s.generations
    ensures ContentComplete(u)
  {
  }

  // --- storing a generation ------------------------------------------------------------------

  /** Inserted documents of generation `g` are new, and the others stay as they were. */
  lemma {:induction false} DocumentsInserted(t: map<DocumentKey, DocumentRow>, rows: seq<(DocumentKey, DocumentRow)>,
                                             g: GenerationKey)
    requires InsertDocuments(t, rows).Ok? && forall i | 0 <= i < |rows| :: rows[i].0.generation == g
    ensures var r := InsertDocuments(t, rows).value;
      && DocumentCount(r, g) == DocumentCount(t, g) + |rows|
      && (forall k | k in t :: k in r && r[k] == t[k])
      && (forall k | k in r && k.generation != g :: k in t)
      && (forall i | 0 <= i < |rows| :: rows[i].0 in r && r[rows[i].0] == rows[i].1)
  {
    if rows != [] {
      var init := rows[..|rows| - 1];
      DocumentsInserted(t, init, g);
      var before := InsertDocuments(t, init).value;
      var r := InsertDocuments(t, rows).value;
      var key := rows[|rows| - 1].0;
      assert forall i | 0 <= i < |init| :: init[i] == rows[i];
      assert (set k | k in r && k.generation == g) == (set k | k in before && k.generation == g) + {key};
    }
  }

  lemma DocumentsUnchanged(t: map<DocumentKey, DocumentRow>, r: map<DocumentKey, DocumentRow>, g: GenerationKey)
    requires forall k: DocumentKey | k.generation == g :: k in t <==> k in r
    ensures DocumentCount(t, g) == DocumentCount(r, g)
  {
    assert (set k | k in t && k.generation == g) == (set k | k in r && k.generation == g);
  }

  /** A chunk row that was accepted is new and belongs to a stored document. */
  lemma LastChunk(documents: map<DocumentKey, DocumentRow>, t: map<ChunkKey, ChunkRow>,
                  rows: seq<(ChunkKey, ChunkRow)>)
    requires rows != [] && InsertChunks(documents, t, rows).Ok?
    ensures var before := InsertChunks(documents, t, rows[..|rows| - 1]);
      var (key, row) := rows[|rows| - 1];
      && before.Ok? && key !in before.value && DocumentKey(key.generation, row.documentId) in documents
      && InsertChunks(documents, t, rows).value == before.value[key := row]
  {
  }

  lemma OneMoreChunk(before: map<ChunkKey, ChunkRow>, key: ChunkKey, row: ChunkRow)
    requires key !in before
    ensures ChunkCount(before[key := row], key.generation) == ChunkCount(before, key.generation) + 1
  {
    var r := before[key := row];
    var g := key.generation;
    assert (set k | k in r && k.generation == g) == (set k | k in before && k.generation == g) + {key};
  }

  /** `r` is `t` with the rows of generation `g` added, each with its document. */
  ghost predicate ChunksAdded(documents: map<DocumentKey, DocumentRow>, t: map<ChunkKey, ChunkRow>,
                              r: map<ChunkKey, ChunkRow>, rows: seq<(ChunkKey, ChunkRow)>, g: GenerationKey) {
    && (forall k | k in t :: k in r && r[k] == t[k])
    && (forall k | k in r && k !in t ::
          k.generation == g && DocumentKey(k.generation, r[k].documentId) in documents)
    && (forall i | 0 <= i < |rows| :: rows[i].0 in r && r[rows[i].0] == rows[i].1)
  }

  lemma ChunksAddedSnoc(documents: map<DocumentKey, DocumentRow>, t: map<ChunkKey, ChunkRow>,
                        before: map<ChunkKey, ChunkRow>, init: seq<(ChunkKey, ChunkRow)>, g: GenerationKey,
                        key: ChunkKey, row: ChunkRow)
    requires ChunksAdded(documents, t, before, init, g) && key !in before
    requires key.generation == g && DocumentKey(g, row.documentId) in documents
    ensures ChunksAdded(documents, t, before[key := row], init + [(key, row)], g)
  {
    var rows := init + [(key, row)];
    assert forall i | 0 <= i < |init| :: rows[i] == init[i];
  }

  lemma NoChunksAdded(documents: map<DocumentKey, DocumentRow>, t: map<ChunkKey, ChunkRow>, g: GenerationKey)
    ensures InsertChunks(documents, t, []) == Ok(t) && ChunksAdded(documents, t, t, [], g)
  {
  }

  lemma {:induction false} ChunksInserted(documents: map<DocumentKey, DocumentRow>, t: map<ChunkKey, ChunkRow>,
                                          rows: seq<(ChunkKey, ChunkRow)>, g: GenerationKey)
    requires InsertChunks(documents, t, rows).Ok? && forall i | 0 <= i < |rows| :: rows[i].0.generation == g
    ensures var r := InsertChunks(documents, t, rows).value;
      ChunkCount(r, g) == ChunkCount(t, g) + |rows| && ChunksAdded(documents, t, r, rows, g)
  {
    hide *;
    if rows == [] {
      NoChunksAdded(documents, t, g);
    } else {
      var init := rows[..|rows| - 1];
      LastChunk(documents, t, rows);
      assert forall i | 0 <= i < |init| :: init[i] == rows[i];
      ChunksInserted(documents, t, init, g);
      var before := InsertChunks(documents, t, init).value;
      var (key, row) := rows[|rows| - 1];
      OneMoreChunk(before, key, row);
      ChunksAddedSnoc(documents, t, before, init, g, key, row);
      assert rows == init + [(key, row)];
    }
  }

  lemma ChunksUnchanged(t: map<ChunkKey, ChunkRow>, r: map<ChunkKey, ChunkRow>, g: GenerationKey)
    requires forall k: ChunkKey | k.generation == g :: k in t <==> k in r
    ensures ChunkCount(t, g) == ChunkCount(r, g)
  {
    assert (set k | k in t && k.generation == g) == (set k | k in r && k.generation == g);
  }

  lemma {:induction false} DocumentRowsOwned(d: Digests, g: GenerationKey, bundles: seq<Bundle>)
    ensures forall i | 0 <= i < |bundles| :: DocumentsOf(d, g, bundles)[i] == DocumentOf(d, g, bundles[i])
  {
    if bundles != [] {
      DocumentRowsOwned(d, g, bundles[..|bundles| - 1]);
    }
  }

  lemma {:induction false} ChunkRowsOwned(d: Digests, g: GenerationKey, chunks: seq<Chunk>)
    ensures forall i | 0 <= i < |chunks| :: ChunkRowsOf(d, g, chunks)[i] == ChunkOf(d, g, chunks[i])
  {
    if chunks != [] {
      ChunkRowsOwned(d, g, chunks[..|chunks| - 1]);
    }
  }

  /** Content of every other generation, and every row already stored, is left alone. */
  ghost predicate Extends(t: Tables, u: Tables, g: GenerationKey) {
    && (forall k | k in t.documents :: k in u.documents && u.documents[k] == t.documents[k])
    && (forall k | k in t.chunks :: k in u.chunks && u.chunks[k] == t.chunks[k])
    && (forall k | k in u.documents && k !in t.documents :: k.generation == g)
    && (forall k | k in u.chunks && k !in t.chunks :: k.generation == g)
  }

  /** The document of a bundle is stored, column by column. */
  ghost predicate DocumentStored(t: map<DocumentKey, DocumentRow>, d: Digests, g: GenerationKey, bundle: Bundle) {
    var m := bundle.manifest;
    var key := DocumentKey(g, m.documentId);
    && key in t
    && t[key].version == m.version && t[key].namespace == m.namespace && t[key].sourceType == m.sourceType
    && t[key].customer == m.customer && t[key].contentSha == m.contentSha && t[key].governanceSha == m.governanceSha
    && t[key].fingerprint == m.fingerprint && t[key].provenanceSha == d.provenance(m.provenance)
  }

  /** A chunk is stored, column by column. */
  ghost predicate ChunkStored(t: map<ChunkKey, ChunkRow>, d: Digests, g: GenerationKey, c: Chunk) {
    var key := ChunkKey(g, c.chunkId);
    && key in t
    && t[key].documentId == c.documentId && t[key].citationId == c.citationId && t[key].version == c.version
    && t[key].ordinal == c.ordinal && t[key].namespace == c.namespace && t[key].sourceType == c.sourceType
    && t[key].customer == c.customer && t[key].governance == c.governance && t[key].section == c.heading
    && t[key].content == c.content && t[key].contentSha == d.sha(c.content)
  }

  /** A stored generation holds exactly the documents and chunks of the plan. */
  ghost predicate Holds(t: Tables, d: Digests, g: GenerationKey, bundles: seq<Bundle>) {
    var all := AllChunks(bundles);
    && DocumentCount(t.documents, g) == |bundles| && ChunkCount(t.chunks, g) == |all|
    && (forall i | 0 <= i < |bundles| :: DocumentStored(t.documents, d, g, bundles[i]))
    && (forall i | 0 <= i < |all| :: ChunkStored(t.chunks, d, g, all[i]))
  }

  lemma DocumentColumns(t: map<DocumentKey, DocumentRow>, d: Digests, g: GenerationKey, bundle: Bundle)
    requires var (key, row) := DocumentOf(d, g, bundle); key in t && t[key] == row
    ensures DocumentStored(t, d, g, bundle)
  {
  }

  lemma ChunkColumns(t: map<ChunkKey, ChunkRow>, d: Digests, g: GenerationKey, c: Chunk)
    requires var (key, row) := ChunkOf(d, g, c); key in t && t[key] == row
    ensures ChunkStored(t, d, g, c)
  {
  }

  lemma EmptyCounts(t: Tables, g: GenerationKey)
    requires ContentComplete(t) && g !in t.generations
    ensures DocumentCount(t.documents, g) == 0 && ChunkCount(t.chunks, g) == 0
  {
    assert (set k | k in t.documents && k.generation == g) == {};
    assert (set k | k in t.chunks && k.generation == g) == {};
  }

  lemma StoreParts(t: Tables, d: Digests, plan: Plan)
    requires StoreGeneration(t, d, plan).Ok?
    ensures var m := plan.manifest;
      var g := GenerationKey(m.scope.customer, m.generation);
      var u := StoreGeneration(t, d, plan).value;
      var documents := InsertDocuments(t.documents, DocumentsOf(d, g, plan.bundles));
      var chunks := InsertChunks(u.documents, t.chunks, ChunkRowsOf(d, g, AllChunks(plan.bundles)));
      && g !in t.generations
      && u.generations == t.generations[g := Generation(m.scope.namespace, m.digest, m.documentCount, m.chunkCount,
                                                         m.totalBytes, Candidate)]
      && documents == Ok(u.documents) && chunks == Ok(u.chunks)
      && DocumentCount(u.documents, g) == m.documentCount && ChunkCount(u.chunks, g) == m.chunkCount
      && u.active == t.active && u.operations == t.operations && u.outbox == t.outbox && u.identity == t.identity
  {
    hide InsertDocuments, InsertChunks, DocumentCount, ChunkCount, AllChunks, DocumentsOf, ChunkRowsOf;
  }

  lemma StoreHolds(t: Tables, d: Digests, plan: Plan)
    requires ContentComplete(t) && StoreGeneration(t, d, plan).Ok?
    ensures var g := GenerationKey(plan.manifest.scope.customer, plan.manifest.generation);
      var u := StoreGeneration(t, d, plan).value;
      Extends(t, u, g) && Holds(u, d, g, plan.bundles) && ContentComplete(u)
  {
    var g := GenerationKey(plan.manifest.scope.customer, plan.manifest.generation);
    var u := StoreGeneration(t, d, plan).value;
    StoreParts(t, d, plan);
    hide StoreGeneration, DocumentCount, ChunkCount, InsertDocuments, InsertChunks, AllChunks, DocumentsOf, ChunkRowsOf,
      ContentComplete, Holds;
    EmptyCounts(t, g);
    DocumentsHold(t.documents, d, g, plan.bundles);
    ChunksHold(u.documents, t.chunks, d, g, AllChunks(plan.bundles));
    assert Extends(t, u, g);
    StoredComplete(t, u, g);
    AllHeld(u, d, g, plan.bundles);
  }

  lemma AllHeld(u: Tables, d: Digests, g: GenerationKey, bundles: seq<Bundle>)
    requires DocumentCount(u.documents, g) == |bundles| && ChunkCount(u.chunks, g) == |AllChunks(bundles)|
    requires forall i | 0 <= i < |bundles| :: DocumentStored(u.documents, d, g, bundles[i])
    requires forall i | 0 <= i < |AllChunks(bundles)| :: ChunkStored(u.chunks, d, g, AllChunks(bundles)[i])
    ensures Holds(u, d, g, bundles)
  {
    hide DocumentStored, ChunkStored, DocumentCount, ChunkCount, AllChunks;
  }

  lemma DocumentsHold(t: map<DocumentKey, DocumentRow>, d: Digests, g: GenerationKey, bundles: seq<Bundle>)
    requires InsertDocuments(t, DocumentsOf(d, g, bundles)).Ok? && DocumentCount(t, g) == 0
    ensures var r := InsertDocuments(t, DocumentsOf(d, g, bundles)).value;
      && DocumentCount(r, g) == |bundles|
      && (forall k | k in t :: k in r && r[k] == t[k])
      && (forall k | k in r && k !in t :: k.generation == g)
      && (forall i | 0 <= i < |bundles| :: DocumentStored(r, d, g, bundles[i]))
  {
    var rows := DocumentsOf(d, g, bundles);
    DocumentRowsOwned(d, g, bundles);
    DocumentsInserted(t, rows, g);
    var r := InsertDocuments(t, rows).value;
    hide InsertDocuments, DocumentsOf, DocumentCount, DocumentStored, DocumentOf;
    forall i | 0 <= i < |bundles|
      ensures DocumentStored(r, d, g, bundles[i])
    {
      assert rows[i] == DocumentOf(d, g, bundles[i]);
      DocumentColumns(r, d, g, bundles[i]);
    }
  }

  lemma ChunksHold(documents: map<DocumentKey, DocumentRow>, t: map<ChunkKey, ChunkRow>, d: Digests, g: GenerationKey,
                   all: seq<Chunk>)
    requires InsertChunks(documents, t, ChunkRowsOf(d, g, all)).Ok? && ChunkCount(t, g) == 0
    ensures var r := InsertChunks(documents, t, ChunkRowsOf(d, g, all)).value;
      && ChunkCount(r, g) == |all|
      && (forall k | k in t :: k in r && r[k] == t[k])
      && (forall k | k in r && k !in t ::
            k.generation == g && DocumentKey(k.generation, r[k].documentId) in documents)
      && (forall i | 0 <= i < |all| :: ChunkStored(r, d, g, all[i]))
  {
    var rows := ChunkRowsOf(d, g, all);
    ChunkRowsOwned(d, g, all);
    ChunksInserted(documents, t, rows, g);
    var r := InsertChunks(documents, t, rows).value;
    hide InsertChunks, ChunkRowsOf, ChunkCount, ChunkStored, ChunkOf;
    forall i | 0 <= i < |all|
      ensures ChunkStored(r, d, g, all[i])
    {
      assert rows[i] == ChunkOf(d, g, all[i]);
      ChunkColumns(r, d, g, all[i]);
    }
  }

  lemma StoredComplete(t: Tables, u: Tables, g: GenerationKey)
    requires ContentComplete(t) && Extends(t, u, g) && g !in t.generations && g in u.generations
    requires u.generations == t.generations[g := u.generations[g]]
    requires DocumentCount(u.documents, g) == u.generations[g].documentCount
    requires ChunkCount(u.chunks, g) == u.generations[g].chunkCount
    requires forall k | k in u.chunks && k !in t.chunks :: DocumentKey(k.generation, u.chunks[k].documentId) in u.documents
    ensures ContentComplete(u)
  {
    hide DocumentCount, ChunkCount;
    forall h | h in u.generations && h != g
      ensures DocumentCount(u.documents, h) == u.generations[h].documentCount
      ensures ChunkCount(u.chunks, h) == u.generations[h].chunkCount
    {
      DocumentsUnchanged(t.documents, u.documents, h);
      ChunksUnchanged(t.chunks, u.chunks, h);
    }
  }

  // --- every commit --------------------------------------------------------------------------

  lemma PublishKeeps(t: Tables, d: Digests, plan: Plan, expected: Option<Uuid>)
    requires Sound(t) && EventMatches(plan)
    requires OperationKey(plan.manifest.scope.customer, plan.context.operationId) !in t.operations
    requires PublishStatements(t, d, plan, expected).result.Ok?
    ensures var u := PublishStatements(t, d, plan, expected).tables;
      var g := GenerationKey(plan.manifest.scope.customer, plan.manifest.generation);
      Sound(u) && Extends(t, u, g) && Holds(u, d, g, plan.bundles) && g !in t.generations
  {
    var scope := plan.manifest.scope;
    var current := ActiveId(t, scope);
    var stored := StoreGeneration(t, d, plan).value;
    var outcome, row := PublishOutcome(plan, current), PublishRow(plan, current);
    PublishStory(plan, current);
    PublishSteps(t, d, plan, expected);
    StoreParts(t, d, plan);
    hide StoreGeneration, PublishStatements, Switch, Persist, ContentComplete, AuditIsBijective, Holds, Extends,
      SameStory, Chained;
    StoreHolds(t, d, plan);
    AuditOnly(t, stored);
    Activatable(t, stored, scope, plan.manifest.generation, plan.manifest.digest);
    hide PointersSound, OnlyPointed, NoCandidates, PointersEndChains, MayActivate, ActiveId, EventMatches;
    ActivationKeeps(stored, outcome, row);
    ActivationParts(stored, outcome, row);
    HoldsOnly(stored, PublishStatements(t, d, plan, expected).tables, t, d,
              GenerationKey(scope.customer, plan.manifest.generation), plan.bundles);
  }

  /** A newly stored candidate changes no pointer and may become active. */
  lemma Activatable(t: Tables, u: Tables, scope: Scope, next: Uuid, digest: string)
    requires PointersSound(t) && OnlyPointed(t) && NoCandidates(t) && PointersEndChains(t)
    requires var g := GenerationKey(scope.customer, next);
      && g !in t.generations && g in u.generations && u.generations == t.generations[g := u.generations[g]]
      && u.generations[g].namespace == scope.namespace && u.generations[g].digest == digest
      && u.generations[g].status == Candidate
    requires u.active == t.active && u.outbox == t.outbox
    ensures MayActivate(u, scope, next, digest) && PointersSound(u) && OnlyPointed(u) && PointersEndChains(u)
    ensures ActiveId(u, scope) == ActiveId(t, scope)
  {
    assert forall other :: ActiveId(u, other) == ActiveId(t, other);
  }

  /** A successful new publication stores, switches and records. */
  lemma PublishSteps(t: Tables, d: Digests, plan: Plan, expected: Option<Uuid>)
    requires OperationKey(plan.manifest.scope.customer, plan.context.operationId) !in t.operations
    requires PublishStatements(t, d, plan, expected).result.Ok?
    ensures ActiveId(t, plan.manifest.scope) == expected && StoreGeneration(t, d, plan).Ok?
    ensures var scope := plan.manifest.scope;
      var s := Switch(StoreGeneration(t, d, plan).value, scope, expected, plan.manifest.generation,
                      plan.manifest.digest);
      PublishStatements(t, d, plan, expected) == Persist(s, PublishOutcome(plan, expected), PublishRow(plan, expected))
  {
    hide StoreGeneration, Switch, Persist;
  }

  lemma PublishStory(plan: Plan, current: Option<Uuid>)
    requires EventMatches(plan)
    ensures SameStory(PublishRow(plan, current), PublishOutcome(plan, current))
  {
  }

  lemma HoldsOnly(s: Tables, u: Tables, t: Tables, d: Digests, g: GenerationKey, bundles: seq<Bundle>)
    requires Holds(s, d, g, bundles) && Extends(t, s, g) && u.documents == s.documents && u.chunks == s.chunks
    ensures Holds(u, d, g, bundles) && Extends(t, u, g)
  {
  }

  lemma RollbackKeeps(t: Tables, request: RollbackRequest, expected: Uuid)
    requires Sound(t)
    requires OperationKey(request.scope.customer, request.context.operationId) !in t.operations
    requires RollbackStatements(t, request, expected).result.Ok?
    ensures var u := RollbackStatements(t, request, expected).tables;
      Sound(u) && u.documents == t.documents && u.chunks == t.chunks
  {
    var digest := t.generations[GenerationKey(request.scope.customer, request.target)].digest;
    RollbackSteps(t, request, expected);
    ReturnActivatable(t, request.scope, request.target);
    hide MayActivate, CanReturnTo, NoCandidates, RollbackStatements, Switch, Persist, ContentComplete, AuditIsBijective, PointersSound, OnlyPointed, Chained,
      PointersEndChains;
    ActivationKeeps(t, RollbackOutcome(request, Some(expected), digest), RollbackRow(request, Some(expected), digest));
    ActivationParts(t, RollbackOutcome(request, Some(expected), digest), RollbackRow(request, Some(expected), digest));
  }

  lemma ReturnActivatable(t: Tables, scope: Scope, target: Uuid)
    requires NoCandidates(t) && CanReturnTo(t, scope, target)
    ensures var g := GenerationKey(scope.customer, target);
      g in t.generations && MayActivate(t, scope, target, t.generations[g].digest)
  {
  }

  /** A successful new rollback switches and records. */
  lemma RollbackSteps(t: Tables, request: RollbackRequest, expected: Uuid)
    requires OperationKey(request.scope.customer, request.context.operationId) !in t.operations
    requires RollbackStatements(t, request, expected).result.Ok?
    ensures ActiveId(t, request.scope) == Some(expected) && CanReturnTo(t, request.scope, request.target)
    ensures var digest := t.generations[GenerationKey(request.scope.customer, request.target)].digest;
      var s := Switch(t, request.scope, Some(expected), request.target, digest);
      RollbackStatements(t, request, expected)
        == Persist(s, RollbackOutcome(request, Some(expected), digest), RollbackRow(request, Some(expected), digest))
  {
    hide Switch, Persist;
  }
}
