/** The immutable records that ingestion, publication and storage share. */
module KnowledgeModels {
  import opened Wrappers

  /** Generation and outbox identifiers are only ever compared. */
  type Uuid = nat
  type Time = int

  datatype Scope = Scope(customer: string, namespace: string)
  datatype SourceType = ProductDocumentation | CustomerPolicy
  datatype Classification = Public | Internal | Restricted | HighlyRestricted
  datatype Provenance = Provenance(rawSha: string, parserMajor: nat)

  /** The nine fields that every chunk of one document must share. */
  datatype Governance = Governance(modules: seq<string>, permissions: seq<string>, purposes: seq<string>,
                                   legalEntities: seq<string>, classification: Classification,
                                   language: string, title: string, effectiveFrom: Time,
                                   effectiveTo: Option<Time>)

  datatype Manifest = Manifest(documentId: string, version: string, namespace: string, sourceType: SourceType,
                               customer: Option<string>, provenance: Option<Provenance>, contentSha: string,
                               governanceSha: string, fingerprint: string, supersedes: Option<string>)

  datatype Chunk = Chunk(chunkId: string, citationId: string, documentId: string, version: string, ordinal: nat,
                         namespace: string, sectionKey: string, heading: string, sourceType: SourceType,
                         customer: Option<string>, governance: Governance, content: string)

  datatype Disposition = NewDocument | Idempotent | SupersedingVersion

  datatype Bundle = Bundle(manifest: Manifest, chunks: seq<Chunk>, disposition: Disposition,
                           totalBytes: nat, totalChunks: nat)

  datatype Context = Context(operationId: string, requestId: string, customer: string, actorId: string,
                             namespace: string, installedModules: set<string>)

  datatype GenerationManifest = GenerationManifest(generation: Uuid, scope: Scope, digest: string,
                                                   documentCount: nat, chunkCount: nat, totalBytes: nat)

  datatype AuditEvent = AuditEvent(outboxId: Uuid, operationId: string, requestId: string, actorId: string,
                                   namespace: string, activated: Uuid, digest: string)

  datatype Plan = Plan(context: Context, manifest: GenerationManifest, bundles: seq<Bundle>,
                       operationDigest: string, event: AuditEvent)

  datatype RollbackRequest = RollbackRequest(context: Context, scope: Scope, target: Uuid,
                                             operationDigest: string, outboxId: Uuid)

  /** The audit event of a plan speaks of the plan's own operation, scope and generation. */
  predicate EventMatches(plan: Plan) {
    && plan.event.operationId == plan.context.operationId
    && plan.event.namespace == plan.manifest.scope.namespace
    && plan.event.activated == plan.manifest.generation
    && plan.event.digest == plan.manifest.digest
  }
}
