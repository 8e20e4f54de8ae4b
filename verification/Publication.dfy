/** The tables of one knowledge database and the transactions that publish and roll back a
    generation. The class updates its fields as the SQL statements update their tables; the
    functions say what a whole transaction does to a value of all the tables. */
module Publication {
  import opened Wrappers
  import opened Ordering
  import opened KnowledgeModels

  datatype Status = Candidate | Active | Retired
  datatype GenerationKey = GenerationKey(customer: string, id: Uuid)
  datatype Generation = Generation(namespace: string, digest: string, documentCount: nat, chunkCount: nat,
                                   totalBytes: nat, status: Status)
  datatype Pointer = Pointer(generation: Uuid, digest: string)

  datatype DocumentKey = DocumentKey(generation: GenerationKey, documentId: string)
  datatype DocumentRow = DocumentRow(version: string, namespace: string, sourceType: SourceType,
                                     customer: Option<string>, contentSha: string, governanceSha: string,
                                     fingerprint: string, provenanceSha: string)
  datatype ChunkKey = ChunkKey(generation: GenerationKey, chunkId: string)
  datatype ChunkRow = ChunkRow(documentId: string, citationId: string, version: string, ordinal: nat,
                               namespace: string, sourceType: SourceType, customer: Option<string>,
                               governance: Governance, section: string, content: string, contentSha: string)

  datatype Outcome =
    | Published(operationId: string, scope: Scope, generation: Uuid, previous: Option<Uuid>, digest: string,
                operationDigest: string)
    | RolledBack(operationId: string, scope: Scope, generation: Uuid, previous: Option<Uuid>, digest: string,
                 operationDigest: string)
  datatype OperationKey = OperationKey(customer: string, operationId: string)
  datatype Action = Publish | Rollback
  datatype OutboxRow = OutboxRow(customer: string, outboxId: Uuid, operationId: string, requestId: string,
                                 actorId: string, namespace: string, action: Action, previous: Option<Uuid>,
                                 activated: Uuid, digest: string)

  datatype Failure = IdentityMismatch | Conflict | StorageUnavailable

  /** What may happen to a transaction: a failure at any statement, or a COMMIT that takes effect
      while its confirmation is lost on the way back. */
  datatype Fault = NoFault | SerializationFailure | OtherFailure | ReplyLost

  datatype Tables = Tables(identity: Option<(string, nat)>,
                           generations: map<GenerationKey, Generation>,
                           documents: map<DocumentKey, DocumentRow>,
                           chunks: map<ChunkKey, ChunkRow>,
                           active: map<Scope, Pointer>,
                           operations: map<OperationKey, Outcome>,
                           outbox: seq<OutboxRow>)

  datatype Attempt = Attempt(tables: Tables, result: Result<Outcome, Failure>)

  // --- rows ----------------------------------------------------------------------------------

  type Hash = string -> string

  /** The digests the rows need: of content, and of a bundle's provenance. */
  datatype Digests = Digests(sha: Hash, provenance: Option<Provenance> -> string)

  function DocumentOf(d: Digests, g: GenerationKey, bundle: Bundle): (DocumentKey, DocumentRow) {
    var m := bundle.manifest;
    (DocumentKey(g, m.documentId),
     DocumentRow(m.version, m.namespace, m.sourceType, m.customer, m.contentSha, m.governanceSha,
                 m.fingerprint, d.provenance(m.provenance)))
  }

  function ChunkOf(d: Digests, g: GenerationKey, c: Chunk): (ChunkKey, ChunkRow) {
    (ChunkKey(g, c.chunkId),
     ChunkRow(c.documentId, c.citationId, c.version, c.ordinal, c.namespace, c.sourceType, c.customer,
              c.governance, c.heading, c.content, d.sha(c.content)))
  }

  function DocumentsOf(d: Digests, g: GenerationKey, bundles: seq<Bundle>): (r: seq<(DocumentKey, DocumentRow)>)
    ensures |r| == |bundles|
  {
    if bundles == [] then []
    else DocumentsOf(d, g, bundles[..|bundles| - 1]) + [DocumentOf(d, g, bundles[|bundles| - 1])]
  }

  function ChunkRowsOf(d: Digests, g: GenerationKey, chunks: seq<Chunk>): (r: seq<(ChunkKey, ChunkRow)>)
    ensures |r| == |chunks|
  {
    if chunks == [] then []
    else ChunkRowsOf(d, g, chunks[..|chunks| - 1]) + [ChunkOf(d, g, chunks[|chunks| - 1])]
  }

  function AllChunks(bundles: seq<Bundle>): seq<Chunk> {
    if bundles == [] then []
    else AllChunks(bundles[..|bundles| - 1]) + bundles[|bundles| - 1].chunks
  }

  // --- single statements ---------------------------------------------------------------------

  /** Inserting document rows: a repeated key is a unique violation. */
  function InsertDocuments(t: map<DocumentKey, DocumentRow>, rows: seq<(DocumentKey, DocumentRow)>):
    Result<map<DocumentKey, DocumentRow>, Failure>
  {
    if rows == [] then Ok(t)
    else
      var before := InsertDocuments(t, rows[..|rows| - 1]);
      if before.Err? then before
      else if rows[|rows| - 1].0 in before.value then Err(Conflict)
      else Ok(before.value[rows[|rows| - 1].0 := rows[|rows| - 1].1])
  }

  /** A row that shares its chunk id, its citation or its place in a document. */
  predicate Collides(t: map<ChunkKey, ChunkRow>, key: ChunkKey, row: ChunkRow) {
    || key in t
    || exists k | k in t :: k.generation == key.generation
         && (t[k].citationId == row.citationId
             || (t[k].documentId == row.documentId && t[k].ordinal == row.ordinal))
  }

  /** Inserting chunk rows: unique violations first, then the reference to the document. */
  function InsertChunks(documents: map<DocumentKey, DocumentRow>, t: map<ChunkKey, ChunkRow>,
                        rows: seq<(ChunkKey, ChunkRow)>): Result<map<ChunkKey, ChunkRow>, Failure>
  {
    if rows == [] then Ok(t)
    else
      var before := InsertChunks(documents, t, rows[..|rows| - 1]);
      if before.Err? then before
      else
        var (key, row) := rows[|rows| - 1];
        if Collides(before.value, key, row) then Err(Conflict)
        else if DocumentKey(key.generation, row.documentId) !in documents then Err(StorageUnavailable)
        else Ok(before.value[key := row])
  }

  function DocumentCount(t: map<DocumentKey, DocumentRow>, g: GenerationKey): nat {
    |set k | k in t && k.generation == g|
  }

  function ChunkCount(t: map<ChunkKey, ChunkRow>, g: GenerationKey): nat {
    |set k | k in t && k.generation == g|
  }

  function SetStatus(t: map<GenerationKey, Generation>, key: GenerationKey, status: Status):
    map<GenerationKey, Generation>
  {
    if key in t then t[key := t[key].(status := status)] else t
  }

  function ActiveId(t: Tables, scope: Scope): Option<Uuid> {
    if scope in t.active then Some(t.active[scope].generation) else None
  }

  predicate Identified(t: Tables, customer: string) {
    t.identity == Some((customer, 1))
  }

  // --- whole transactions --------------------------------------------------------------------

  /** Insert one candidate generation with all its content and check what was stored. */
  function StoreGeneration(t: Tables, d: Digests, plan: Plan): Result<Tables, Failure> {
    var m := plan.manifest;
    var g := GenerationKey(m.scope.customer, m.generation);
    if g in t.generations then Err(Conflict)
    else
      var row := Generation(m.scope.namespace, m.digest, m.documentCount, m.chunkCount, m.totalBytes, Candidate);
      var documents := InsertDocuments(t.documents, DocumentsOf(d, g, plan.bundles));
      if documents.Err? then Err(documents.error)
      else
        var chunks := InsertChunks(documents.value, t.chunks, ChunkRowsOf(d, g, AllChunks(plan.bundles)));
        if chunks.Err? then Err(chunks.error)
        else if DocumentCount(documents.value, g) != m.documentCount || ChunkCount(chunks.value, g) != m.chunkCount
        then Err(StorageUnavailable)
        else Ok(t.(generations := t.generations[g := row], documents := documents.value, chunks := chunks.value))
  }

  /** Retire what was active, activate `next` and move the pointer of the scope. */
  function Switch(t: Tables, scope: Scope, current: Option<Uuid>, next: Uuid, digest: string): Tables {
    var retired := if current.None? then t.generations
                   else SetStatus(t.generations, GenerationKey(scope.customer, current.value), Retired);
    t.(generations := SetStatus(retired, GenerationKey(scope.customer, next), Active),
       active := t.active[scope := Pointer(next, digest)])
  }

  predicate OutboxTaken(outbox: seq<OutboxRow>, row: OutboxRow) {
    exists i | 0 <= i < |outbox| :: outbox[i].customer == row.customer
      && (outbox[i].outboxId == row.outboxId || outbox[i].operationId == row.operationId)
  }

  /** Record the result and its audit row together. */
  function Persist(t: Tables, outcome: Outcome, row: OutboxRow): Attempt {
    var key := OperationKey(outcome.scope.customer, outcome.operationId);
    if key in t.operations || OutboxTaken(t.outbox, row) then Attempt(t, Err(Conflict))
    else Attempt(t.(operations := t.operations[key := outcome], outbox := t.outbox + [row]), Ok(outcome))
  }

  function PublishOutcome(plan: Plan, current: Option<Uuid>): Outcome {
    Published(plan.context.operationId, plan.manifest.scope, plan.manifest.generation, current,
              plan.manifest.digest, plan.operationDigest)
  }

  function PublishRow(plan: Plan, current: Option<Uuid>): OutboxRow {
    OutboxRow(plan.manifest.scope.customer, plan.event.outboxId, plan.event.operationId, plan.event.requestId,
              plan.event.actorId, plan.event.namespace, Publish, current, plan.event.activated,
              plan.event.digest)
  }

  function RollbackOutcome(request: RollbackRequest, current: Option<Uuid>, digest: string): Outcome {
    RolledBack(request.context.operationId, request.scope, request.target, current, digest,
               request.operationDigest)
  }

  function RollbackRow(request: RollbackRequest, current: Option<Uuid>, digest: string): OutboxRow {
    OutboxRow(request.scope.customer, request.outboxId, request.context.operationId, request.context.requestId,
              request.context.actorId, request.scope.namespace, Rollback, current, request.target, digest)
  }

  /** The stored result of an operation that already completed, if it is the same operation. */
  function Replayed(stored: Outcome, action: Action, operationDigest: string): Result<Outcome, Failure> {
    if (action.Publish? <==> stored.Published?) && stored.operationDigest == operationDigest
    then Ok(stored) else Err(Conflict)
  }

  function PublishStatements(t: Tables, d: Digests, plan: Plan, expected: Option<Uuid>): Attempt {
    var scope := plan.manifest.scope;
    var key := OperationKey(scope.customer, plan.context.operationId);
    if !Identified(t, scope.customer) then Attempt(t, Err(IdentityMismatch))
    else if key in t.operations then Attempt(t, Replayed(t.operations[key], Publish, plan.operationDigest))
    else
      var current := ActiveId(t, scope);
      if current != expected then Attempt(t, Err(Conflict))
      else
        var stored := StoreGeneration(t, d, plan);
        if stored.Err? then Attempt(t, Err(stored.error))
        else
          Persist(Switch(stored.value, scope, current, plan.manifest.generation, plan.manifest.digest),
                  PublishOutcome(plan, current), PublishRow(plan, current))
  }

  /** A retired generation of the scope that the pointer may return to. */
  predicate CanReturnTo(t: Tables, scope: Scope, id: Uuid) {
    var g := GenerationKey(scope.customer, id);
    g in t.generations && t.generations[g].namespace == scope.namespace && t.generations[g].status == Retired
  }

  function RollbackStatements(t: Tables, request: RollbackRequest, expected: Uuid): Attempt {
    var scope := request.scope;
    var key := OperationKey(scope.customer, request.context.operationId);
    if !Identified(t, scope.customer) then Attempt(t, Err(IdentityMismatch))
    else if key in t.operations then Attempt(t, Replayed(t.operations[key], Rollback, request.operationDigest))
    else
      var current := ActiveId(t, scope);
      if current != Some(expected) || !CanReturnTo(t, scope, request.target) then Attempt(t, Err(Conflict))
      else
        var digest := t.generations[GenerationKey(scope.customer, request.target)].digest;
        Persist(Switch(t, scope, current, request.target, digest),
                RollbackOutcome(request, current, digest), RollbackRow(request, current, digest))
  }

  /** A transaction ends with everything its statements did, or with nothing; when the confirmation
      is lost, the caller cannot tell. */
  function Finish(before: Tables, attempt: Attempt, fault: Fault): Attempt {
    if fault.SerializationFailure? then Attempt(before, Err(Conflict))
    else if fault.OtherFailure? then Attempt(before, Err(StorageUnavailable))
    else if attempt.result.Err? then Attempt(before, attempt.result)
    else if fault.ReplyLost? then Attempt(attempt.tables, Err(StorageUnavailable))
    else attempt
  }

  function CommitPublish(t: Tables, d: Digests, customer: string, plan: Plan, expected: Option<Uuid>, fault: Fault):
    Attempt
  {
    if plan.manifest.scope.customer != customer then Attempt(t, Err(IdentityMismatch))
    else Finish(t, PublishStatements(t, d, plan, expected), fault)
  }

  function CommitRollback(t: Tables, customer: string, request: RollbackRequest, expected: Uuid, fault: Fault):
    Attempt
  {
    if request.scope.customer != customer then Attempt(t, Err(IdentityMismatch))
    else Finish(t, RollbackStatements(t, request, expected), fault)
  }

  // --- the repository ------------------------------------------------------------------------

  class Repository {
    const customer: string
    const digests: Digests
    var identity: Option<(string, nat)>
    var generations: map<GenerationKey, Generation>
    var documents: map<DocumentKey, DocumentRow>
    var chunks: map<ChunkKey, ChunkRow>
    var active: map<Scope, Pointer>
    var operations: map<OperationKey, Outcome>
    var outbox: seq<OutboxRow>

    /** All the tables as one value. */
    function Contents(): Tables
      reads this
    {
      Tables(identity, generations, documents, chunks, active, operations, outbox)
    }

    /** A repository of one customer over a freshly provisioned database. */
    constructor (customer: string, digests: Digests, identity: Option<(string, nat)>)
      ensures this.customer == customer && this.digests == digests
      ensures Contents() == Tables(identity, map[], map[], map[], map[], map[], [])
    {
      this.customer, this.digests, this.identity := customer, digests, identity;
      generations, documents, chunks, active, operations, outbox := map[], map[], map[], map[], map[], [];
    }

    method Restore(saved: Tables)
      modifies this
      ensures Contents() == saved
    {
      identity, generations, documents, chunks := saved.identity, saved.generations, saved.documents, saved.chunks;
      active, operations, outbox := saved.active, saved.operations, saved.outbox;
    }

    method GetOperationResult(operationId: string, fault: Fault) returns (r: Result<Option<Outcome>, Failure>)
      ensures fault != NoFault ==> r == Err(StorageUnavailable)
      ensures fault == NoFault ==> r == LookUp(Contents(), customer, operationId)
    {
      if fault != NoFault {
        return Err(StorageUnavailable);
      }
      if identity != Some((customer, 1)) {
        return Err(IdentityMismatch);
      }
      var key := OperationKey(customer, operationId);
      r := Ok(if key in operations then Some(operations[key]) else None);
    }

    method GetActiveSnapshot(scope: Scope, fault: Fault) returns (r: Result<Option<Pointer>, Failure>)
      ensures scope.customer != customer ==> r == Err(IdentityMismatch)
      ensures scope.customer == customer && fault != NoFault ==> r == Err(StorageUnavailable)
      ensures scope.customer == customer && fault == NoFault ==>
        r == if !Identified(Contents(), customer) then Err(IdentityMismatch)
             else Ok(if scope in active then Some(active[scope]) else None)
    {
      if scope.customer != customer {
        return Err(IdentityMismatch);
      }
      if fault != NoFault {
        return Err(StorageUnavailable);
      }
      if identity != Some((customer, 1)) {
        return Err(IdentityMismatch);
      }
      r := Ok(if scope in active then Some(active[scope]) else None);
    }

    method CommitGeneration(plan: Plan, expected: Option<Uuid>, fault: Fault) returns (r: Result<Outcome, Failure>)
      modifies this
      ensures Attempt(Contents(), r) == CommitPublish(old(Contents()), digests, customer, plan, expected, fault)
      ensures var key := OperationKey(customer, plan.context.operationId);
        plan.manifest.scope.customer == customer && old(identity) == Some((customer, 1)) && key in old(operations)
        && fault.NoFault? ==>
          && Contents() == old(Contents())
          && r == if old(operations[key]).Published? && old(operations[key]).operationDigest == plan.operationDigest
                  then Ok(old(operations[key])) else Err(Conflict)
    {
      if plan.manifest.scope.customer != customer {
        return Err(IdentityMismatch);
      }
      var saved := Contents();
      r := RunPublish(plan, expected);
      if fault == SerializationFailure {
        r := Err(Conflict);
      } else if fault == OtherFailure {
        r := Err(StorageUnavailable);
      }
      if r.Err? {
        Restore(saved);
      } else if fault == ReplyLost {
        r := Err(StorageUnavailable);
      }
    }

    /** The statements of one publication; on failure they stop where they are. */
    method RunPublish(plan: Plan, expected: Option<Uuid>) returns (r: Result<Outcome, Failure>)
      requires plan.manifest.scope.customer == customer
      modifies this
      ensures r == PublishStatements(old(Contents()), digests, plan, expected).result
      ensures r.Ok? ==> Contents() == PublishStatements(old(Contents()), digests, plan, expected).tables
      ensures var key := OperationKey(customer, plan.context.operationId);
        old(identity) == Some((customer, 1)) && key in old(operations) ==>
          r == if old(operations[key]).Published? && old(operations[key]).operationDigest == plan.operationDigest
               then Ok(old(operations[key])) else Err(Conflict)
    {
      var scope := plan.manifest.scope;
      var key := OperationKey(customer, plan.context.operationId);
      if identity != Some((customer, 1)) {
        return Err(IdentityMismatch);
      }
      if key in operations {
        return Replayed(operations[key], Publish, plan.operationDigest);
      }
      var current := if scope in active then Some(active[scope].generation) else None;
      if current != expected {
        return Err(Conflict);
      }
      var failed := InsertGeneration(plan);
      if failed.Some? {
        return Err(failed.value);
      }
      if current.Some? {
        generations := SetStatus(generations, GenerationKey(customer, current.value), Retired);
      }
      generations := SetStatus(generations, GenerationKey(customer, plan.manifest.generation), Active);
      active := active[scope := Pointer(plan.manifest.generation, plan.manifest.digest)];
      r := PersistResultAndOutbox(PublishOutcome(plan, current), PublishRow(plan, current));
    }

    method InsertGeneration(plan: Plan) returns (failed: Option<Failure>)
      requires plan.manifest.scope.customer == customer
      modifies this`generations, this`documents, this`chunks
      ensures var stored := StoreGeneration(old(Contents()), digests, plan);
        && (failed.Some? <==> stored.Err?)
        && (failed.Some? ==> failed.value == stored.error)
        && (failed.None? ==> Contents() == stored.value)
    {
      var m := plan.manifest;
      var g := GenerationKey(customer, m.generation);
      if g in generations {
        return Some(Conflict);
      }
      generations := generations[g := Generation(m.scope.namespace, m.digest, m.documentCount, m.chunkCount,
                                                 m.totalBytes, Candidate)];
      var documentRows, chunkRows := BuildRows(g, plan.bundles);
      var insertedDocuments := AddDocuments(documentRows);
      if insertedDocuments.Some? {
        return insertedDocuments;
      }
      var insertedChunks := AddChunks(chunkRows);
      if insertedChunks.Some? {
        return insertedChunks;
      }
      if (DocumentCount(documents, g), ChunkCount(chunks, g)) != (m.documentCount, m.chunkCount) {
        return Some(StorageUnavailable);
      }
      failed := None;
    }

    /** Collect the rows of every bundle and of every chunk in it. */
    method BuildRows(g: GenerationKey, bundles: seq<Bundle>)
      returns (documentRows: seq<(DocumentKey, DocumentRow)>, chunkRows: seq<(ChunkKey, ChunkRow)>)
      ensures documentRows == DocumentsOf(digests, g, bundles)
      ensures chunkRows == ChunkRowsOf(digests, g, AllChunks(bundles))
    {
      documentRows, chunkRows := [], [];
      assert AllChunks([]) == [];
      hide AllChunks, DocumentOf, ChunkOf;
      for i := 0 to |bundles|
        invariant documentRows == DocumentsOf(digests, g, bundles[..i])
        invariant chunkRows == ChunkRowsOf(digests, g, AllChunks(bundles[..i]))
      {
        hide *;
        NextBundle(digests, g, bundles, i);
        documentRows := documentRows + [DocumentOf(digests, g, bundles[i])];
        var own := bundles[i].chunks;
        ghost var earlier := AllChunks(bundles[..i]);
        assert earlier + own[..0] == earlier;
        for j := 0 to |own|
          invariant chunkRows == ChunkRowsOf(digests, g, earlier + own[..j])
        {
          NextChunk(digests, g, earlier, own, j);
          chunkRows := chunkRows + [ChunkOf(digests, g, own[j])];
        }
        assert own[..|own|] == own;
      }
      assert bundles[..|bundles|] == bundles;
    }

    method AddDocuments(rows: seq<(DocumentKey, DocumentRow)>) returns (failed: Option<Failure>)
      modifies this`documents
      ensures var r := InsertDocuments(old(documents), rows);
        && (failed.Some? <==> r.Err?)
        && (failed.Some? ==> failed.value == r.error)
        && (failed.None? ==> documents == r.value)
    {
      for i := 0 to |rows|
        invariant InsertDocuments(old(documents), rows[..i]) == Ok(documents)
      {
        assert rows[..i + 1][..i] == rows[..i];
        var (key, row) := rows[i];
        if key in documents {
          DocumentsStayFailed(old(documents), rows, i + 1);
          return Some(Conflict);
        }
        documents := documents[key := row];
      }
      assert rows[..|rows|] == rows;
      failed := None;
    }

    method AddChunks(rows: seq<(ChunkKey, ChunkRow)>) returns (failed: Option<Failure>)
      modifies this`chunks
      ensures var r := InsertChunks(documents, old(chunks), rows);
        && (failed.Some? <==> r.Err?)
        && (failed.Some? ==> failed.value == r.error)
        && (failed.None? ==> chunks == r.value)
    {
      for i := 0 to |rows|
        invariant InsertChunks(documents, old(chunks), rows[..i]) == Ok(chunks)
      {
        assert rows[..i + 1][..i] == rows[..i];
        var (key, row) := rows[i];
        if Collides(chunks, key, row) {
          ChunksStayFailed(documents, old(chunks), rows, i + 1);
          return Some(Conflict);
        }
        if DocumentKey(key.generation, row.documentId) !in documents {
          ChunksStayFailed(documents, old(chunks), rows, i + 1);
          return Some(StorageUnavailable);
        }
        chunks := chunks[key := row];
      }
      assert rows[..|rows|] == rows;
      failed := None;
    }

    method PersistResultAndOutbox(outcome: Outcome, row: OutboxRow) returns (r: Result<Outcome, Failure>)
      requires outcome.scope.customer == customer
      modifies this`operations, this`outbox
      ensures r == Persist(old(Contents()), outcome, row).result
      ensures r.Ok? ==> Contents() == Persist(old(Contents()), outcome, row).tables
      ensures r.Ok? <==>
        && OperationKey(customer, outcome.operationId) !in old(operations)
        && forall i | 0 <= i < |old(outbox)| && old(outbox[i]).customer == row.customer ::
             old(outbox[i]).outboxId != row.outboxId && old(outbox[i]).operationId != row.operationId
      ensures r.Ok? ==>
        && r == Ok(outcome) && outbox == old(outbox) + [row]
        && operations == old(operations)[OperationKey(customer, outcome.operationId) := outcome]
      ensures r.Err? ==> r == Err(Conflict)
    {
      var key := OperationKey(customer, outcome.operationId);
      if key in operations {
        return Err(Conflict);
      }
      operations := operations[key := outcome];
      if OutboxTaken(outbox, row) {
        return Err(Conflict);
      }
      outbox := outbox + [row];
      r := Ok(outcome);
    }

    method CommitRollbackOf(request: RollbackRequest, expected: Uuid, fault: Fault)
      returns (r: Result<Outcome, Failure>)
      modifies this
      ensures Attempt(Contents(), r) == CommitRollback(old(Contents()), customer, request, expected, fault)
      ensures var key := OperationKey(customer, request.context.operationId);
        request.scope.customer == customer && old(identity) == Some((customer, 1)) && key in old(operations)
        && fault.NoFault? ==>
          && Contents() == old(Contents())
          && r == if old(operations[key]).RolledBack? && old(operations[key]).operationDigest == request.operationDigest
                  then Ok(old(operations[key])) else Err(Conflict)
    {
      if request.scope.customer != customer {
        return Err(IdentityMismatch);
      }
      var saved := Contents();
      r := RunRollback(request, expected);
      if fault == SerializationFailure {
        r := Err(Conflict);
      } else if fault == OtherFailure {
        r := Err(StorageUnavailable);
      }
      if r.Err? {
        Restore(saved);
      } else if fault == ReplyLost {
        r := Err(StorageUnavailable);
      }
    }

    method RunRollback(request: RollbackRequest, expected: Uuid) returns (r: Result<Outcome, Failure>)
      requires request.scope.customer == customer
      modifies this
      ensures r == RollbackStatements(old(Contents()), request, expected).result
      ensures r.Ok? ==> Contents() == RollbackStatements(old(Contents()), request, expected).tables
      ensures var key := OperationKey(customer, request.context.operationId);
        old(identity) == Some((customer, 1)) && key in old(operations) ==>
          r == if old(operations[key]).RolledBack? && old(operations[key]).operationDigest == request.operationDigest
               then Ok(old(operations[key])) else Err(Conflict)
    {
      var scope := request.scope;
      var key := OperationKey(customer, request.context.operationId);
      if identity != Some((customer, 1)) {
        return Err(IdentityMismatch);
      }
      if key in operations {
        return Replayed(operations[key], Rollback, request.operationDigest);
      }
      var current := if scope in active then Some(active[scope].generation) else None;
      if current != Some(expected) {
        return Err(Conflict);
      }
      var target := GenerationKey(customer, request.target);
      if !(target in generations && generations[target].namespace == scope.namespace
           && generations[target].status == Retired) {
        return Err(Conflict);
      }
      var digest := generations[target].digest;
      generations := SetStatus(generations, GenerationKey(customer, expected), Retired);
      generations := SetStatus(generations, target, Active);
      active := active[scope := Pointer(request.target, digest)];
      r := PersistResultAndOutbox(RollbackOutcome(request, current, digest), RollbackRow(request, current, digest));
    }
  }

  function LookUp(t: Tables, customer: string, operationId: string): Result<Option<Outcome>, Failure> {
    var key := OperationKey(customer, operationId);
    if !Identified(t, customer) then Err(IdentityMismatch)
    else Ok(if key in t.operations then Some(t.operations[key]) else None)
  }

  lemma NextBundle(d: Digests, g: GenerationKey, bundles: seq<Bundle>, i: nat)
    requires i < |bundles|
    ensures DocumentsOf(d, g, bundles[..i + 1]) == DocumentsOf(d, g, bundles[..i]) + [DocumentOf(d, g, bundles[i])]
    ensures AllChunks(bundles[..i + 1]) == AllChunks(bundles[..i]) + bundles[i].chunks
  {
    assert bundles[..i + 1][..i] == bundles[..i];
  }

  lemma NextChunk(d: Digests, g: GenerationKey, earlier: seq<Chunk>, own: seq<Chunk>, j: nat)
    requires j < |own|
    ensures ChunkRowsOf(d, g, earlier + own[..j + 1])
         == ChunkRowsOf(d, g, earlier + own[..j]) + [ChunkOf(d, g, own[j])]
  {
    var all := earlier + own[..j + 1];
    assert all[..|all| - 1] == earlier + own[..j];
  }

  lemma {:induction false} DocumentsStayFailed(t: map<DocumentKey, DocumentRow>, rows: seq<(DocumentKey, DocumentRow)>,
                                               i: nat)
    requires i <= |rows| && InsertDocuments(t, rows[..i]).Err?
    ensures InsertDocuments(t, rows) == InsertDocuments(t, rows[..i])
    decreases |rows| - i
  {
    if i == |rows| {
      assert rows[..i] == rows;
    } else {
      assert rows[..i + 1][..i] == rows[..i];
      DocumentsStayFailed(t, rows, i + 1);
    }
  }

  lemma {:induction false} ChunksStayFailed(documents: map<DocumentKey, DocumentRow>, t: map<ChunkKey, ChunkRow>,
                                            rows: seq<(ChunkKey, ChunkRow)>, i: nat)
    requires i <= |rows| && InsertChunks(documents, t, rows[..i]).Err?
    ensures InsertChunks(documents, t, rows) == InsertChunks(documents, t, rows[..i])
    decreases |rows| - i
  {
    if i == |rows| {
      assert rows[..i] == rows;
    } else {
      assert rows[..i + 1][..i] == rows[..i];
      ChunksStayFailed(documents, t, rows, i + 1);
    }
  }
}
