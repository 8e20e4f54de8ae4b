/** Checking prepared bundles and planning one generation from them. */
module PublicationPlan {
  import opened Wrappers
  import opened Ordering
  import opened CanonicalJson
  import opened KnowledgeModels
  import opened GenerationDigest

  datatype Limits = Limits(maximumDocuments: nat, maximumChunks: nat, maximumBytes: nat, maximumBundles: nat)

  datatype PlanError = BundleCount | InvalidBundle | ConflictingVersions | DuplicateDocument | DuplicateChunk
                     | DuplicateCitation | BadMetadata | OutsideNamespace | OutsideCustomer | MissingModule
                     | Expired | Unsupported | LimitsExceeded

  // --- metadata of one bundle ----------------------------------------------------------------

  /** The first 32 characters. */
  function Short(s: string): (r: string)
    ensures r <= s && |r| == if |s| < 32 then |s| else 32
  {
    if |s| <= 32 then s else s[..32]
  }

  function OpaqueId(sha: Hash, kind: string, fingerprint: string, ordinal: nat): string {
    kind + "_" + Short(Digest(sha, Triple("fingerprint", Text(fingerprint), "kind", Text(kind),
                                          "ordinal", Number(ordinal))))
  }

  function Fingerprint(sha: Hash, contentSha: string, governanceSha: string): string {
    Digest(sha, Pair("content", Text(contentSha), "governance", Text(governanceSha)))
  }

  /** The shortened hashes of these two texts do not collide. */
  predicate NoCollision(sha: Hash, x: string, y: string) {
    Short(sha(x)) == Short(sha(y)) ==> x == y
  }

  function IdJson(kind: string, fingerprint: string, ordinal: nat): Json {
    Triple("fingerprint", Text(fingerprint), "kind", Text(kind), "ordinal", Number(ordinal))
  }

  /** An opaque id tells its kind, the fingerprint of its document and its place apart, as long as
      the shortened hash does. */
  lemma OpaqueIdsDiffer(sha: Hash, kind: string, fingerprint: string, i: nat, other: string, f: string, j: nat)
    requires NoCollision(sha, Serialize(IdJson(kind, fingerprint, i)), Serialize(IdJson(other, f, j)))
    requires kind in {"chk", "cite"} && other in {"chk", "cite"}
    ensures OpaqueId(sha, kind, fingerprint, i) == OpaqueId(sha, other, f, j) <==>
      kind == other && fingerprint == f && i == j
  {
    if OpaqueId(sha, kind, fingerprint, i) == OpaqueId(sha, other, f, j) {
      var x, y := Short(sha(Serialize(IdJson(kind, fingerprint, i)))), Short(sha(Serialize(IdJson(other, f, j))));
      IdIs(sha, kind, fingerprint, i);
      IdIs(sha, other, f, j);
      hide OpaqueId, Serialize, Short;
      SamePrefix(kind, other, x, y);
      SerializeInjective(IdJson(kind, fingerprint, i), IdJson(other, f, j));
    }
  }

  lemma IdIs(sha: Hash, kind: string, fingerprint: string, i: nat)
    ensures OpaqueId(sha, kind, fingerprint, i) == kind + "_" + Short(sha(Serialize(IdJson(kind, fingerprint, i))))
  {
    hide Serialize, Short;
  }

  lemma SamePrefix(kind: string, other: string, x: string, y: string)
    requires kind + "_" + x == other + "_" + y
    requires kind in {"chk", "cite"} && other in {"chk", "cite"}
    ensures kind == other && x == y
  {
    var s := kind + "_" + x;
    assert kind == "chk" || kind == "cite";
    assert other == "chk" || other == "cite";
    assert s[1] == kind[1] == other[1];
    assert x == s[|kind| + 1..] && y == (other + "_" + y)[|other| + 1..];
  }

  /** A fingerprint covers content and governance. */
  lemma FingerprintsDiffer(sha: Hash, content: string, governance: string, c: string, g: string)
    requires Injective(sha)
    ensures Fingerprint(sha, content, governance) == Fingerprint(sha, c, g) <==> content == c && governance == g
  {
    if Fingerprint(sha, content, governance) == Fingerprint(sha, c, g) {
      hide Serialize;
      SerializeInjective(Pair("content", Text(content), "governance", Text(governance)),
                         Pair("content", Text(c), "governance", Text(g)));
    }
  }

  /** A chunk says about its document what the manifest says, and its ids are the right ones. */
  predicate ChunkMatches(sha: Hash, m: Manifest, governance: Governance, c: Chunk, ordinal: nat) {
    && c.ordinal == ordinal && c.governance == governance
    && c.documentId == m.documentId && c.version == m.version && c.namespace == m.namespace
    && c.sourceType == m.sourceType && c.customer == m.customer
    && c.chunkId == OpaqueId(sha, "chk", m.fingerprint, ordinal)
    && c.citationId == OpaqueId(sha, "cite", m.fingerprint, ordinal)
  }

  ghost predicate MetadataValid(sha: Hash, b: Bundle) {
    && b.chunks != [] && b.totalChunks == |b.chunks|
    && b.manifest.fingerprint == Fingerprint(sha, b.manifest.contentSha, b.manifest.governanceSha)
    && forall i | 0 <= i < |b.chunks| :: ChunkMatches(sha, b.manifest, b.chunks[0].governance, b.chunks[i], i)
  }

  method ValidateChunkMetadata(sha: Hash, b: Bundle) returns (ok: bool)
    ensures ok <==> MetadataValid(sha, b)
    ensures ok <==>
      && b.chunks != [] && b.totalChunks == |b.chunks|
      && b.manifest.fingerprint == Fingerprint(sha, b.manifest.contentSha, b.manifest.governanceSha)
      && forall i | 0 <= i < |b.chunks| ::
           var m, c := b.manifest, b.chunks[i];
           && c.ordinal == i && c.governance == b.chunks[0].governance && c.documentId == m.documentId
           && c.version == m.version && c.namespace == m.namespace && c.sourceType == m.sourceType
           && c.customer == m.customer && c.chunkId == OpaqueId(sha, "chk", m.fingerprint, i)
           && c.citationId == OpaqueId(sha, "cite", m.fingerprint, i)
  {
    for i := 0 to |b.chunks|
      invariant forall j | 0 <= j < i :: b.chunks[j].ordinal == j
    {
      if b.chunks[i].ordinal != i {
        return false;
      }
    }
    if b.totalChunks != |b.chunks| || b.chunks == [] {
      return false;
    }
    if b.manifest.fingerprint != Fingerprint(sha, b.manifest.contentSha, b.manifest.governanceSha) {
      return false;
    }
    var shared := b.chunks[0].governance;
    hide OpaqueId, Fingerprint;
    for i := 0 to |b.chunks|
      invariant forall j | 0 <= j < i :: ChunkMatches(sha, b.manifest, shared, b.chunks[j], j)
    {
      if !ChunkMatches(sha, b.manifest, shared, b.chunks[i], i) {
        return false;
      }
    }
    ok := true;
  }

  /** Everything that is asked of one bundle on its own. */
  ghost predicate BundleOk(sha: Hash, context: Context, now: Time, b: Bundle) {
    && b.totalBytes >= 1 && b.totalChunks >= 1
    && MetadataValid(sha, b)
    && b.manifest.namespace == context.namespace
    && (if b.manifest.sourceType.ProductDocumentation? then b.manifest.customer == None
        else b.manifest.customer == Some(context.customer))
    && GovernanceOk(context, now, b.chunks[0].governance)
  }

  /** Its modules are installed, it has not expired, and its classification may be published. */
  ghost predicate GovernanceOk(context: Context, now: Time, g: Governance) {
    && (forall m | m in g.modules :: m in context.installedModules)
    && (g.effectiveTo.Some? ==> g.effectiveTo.value > now)
    && g.classification != HighlyRestricted
  }

  // --- a whole list of bundles ---------------------------------------------------------------

  predicate HasChunkId(b: Bundle, id: string) {
    exists i | 0 <= i < |b.chunks| :: b.chunks[i].chunkId == id
  }

  predicate HasCitation(b: Bundle, id: string) {
    exists i | 0 <= i < |b.chunks| :: b.chunks[i].citationId == id
  }

  /** Two bundles that share no document, chunk or citation id. */
  ghost predicate Separate(a: Bundle, b: Bundle) {
    && a.manifest.documentId != b.manifest.documentId
    && (forall id :: !(HasChunkId(a, id) && HasChunkId(b, id)))
    && (forall id :: !(HasCitation(a, id) && HasCitation(b, id)))
  }

  ghost predicate AllSeparate(bundles: seq<Bundle>) {
    forall i, j | 0 <= i < j < |bundles| :: Separate(bundles[i], bundles[j])
  }

  /** What makes a list of bundles publishable; the order of the list plays no part. */
  ghost predicate Accepts(sha: Hash, context: Context, limits: Limits, now: Time, bundles: seq<Bundle>) {
    && 1 <= |bundles| <= limits.maximumBundles && |bundles| <= limits.maximumDocuments
    && (forall i | 0 <= i < |bundles| :: BundleOk(sha, context, now, bundles[i]))
    && AllSeparate(bundles)
    && ChunkTotal(bundles) <= limits.maximumChunks && ByteTotal(bundles) <= limits.maximumBytes
  }

  /** Bundles go by document id, then by version. */
  predicate BundleLe(a: Bundle, b: Bundle) {
    if a.manifest.documentId == b.manifest.documentId then StringLe(a.manifest.version, b.manifest.version)
    else StringLe(a.manifest.documentId, b.manifest.documentId)
  }

  function ScopeOfContext(context: Context): Scope {
    Scope(context.customer, context.namespace)
  }

  function PlanOf(sha: Hash, context: Context, ordered: seq<Bundle>, generation: Uuid, outboxId: Uuid): Plan {
    var scope := ScopeOfContext(context);
    var digest := sha(Stream(Objects(sha, scope, ordered)));
    Plan(context,
         GenerationManifest(generation, scope, digest, |ordered|, ChunkTotal(ordered), ByteTotal(ordered)),
         ordered,
         Digest(sha, Pair("generation", Text(digest), "scope", ScopeJson(scope))),
         AuditEvent(outboxId, context.operationId, context.requestId, context.actorId, context.namespace,
                    generation, digest))
  }

  // --- the loop ------------------------------------------------------------------------------

  /** The dictionaries, sets and totals while the bundles are read. */
  datatype Seen = Seen(versions: map<string, string>, chunkIds: set<string>, citations: set<string>,
                       documents: nat, chunks: nat, bytes: nat)

  const NOTHING := Seen(map[], {}, {}, 0, 0, 0)

  function ChunkIds(b: Bundle): set<string> {
    set i | 0 <= i < |b.chunks| :: b.chunks[i].chunkId
  }

  function Citations(b: Bundle): set<string> {
    set i | 0 <= i < |b.chunks| :: b.chunks[i].citationId
  }

  function Remember(s: Seen, b: Bundle): Seen {
    Seen(s.versions[b.manifest.documentId := b.manifest.version], s.chunkIds + ChunkIds(b),
         s.citations + Citations(b), s.documents + 1, s.chunks + |b.chunks|, s.bytes + b.totalBytes)
  }

  predicate AnyDocument(bundles: seq<Bundle>, id: string) {
    exists i | 0 <= i < |bundles| :: bundles[i].manifest.documentId == id
  }

  predicate AnyChunkId(bundles: seq<Bundle>, id: string) {
    exists i | 0 <= i < |bundles| :: HasChunkId(bundles[i], id)
  }

  predicate AnyCitation(bundles: seq<Bundle>, id: string) {
    exists i | 0 <= i < |bundles| :: HasCitation(bundles[i], id)
  }

  /** The accumulators hold exactly what the bundles read so far contain. */
  ghost predicate Remembers(s: Seen, bundles: seq<Bundle>) {
    && (forall id :: id in s.versions <==> AnyDocument(bundles, id))
    && (forall id :: id in s.chunkIds <==> AnyChunkId(bundles, id))
    && (forall id :: id in s.citations <==> AnyCitation(bundles, id))
    && s.documents == |bundles| && s.chunks == ChunkTotal(bundles) && s.bytes == ByteTotal(bundles)
  }

  lemma NothingRemembered()
    ensures Remembers(NOTHING, [])
  {
  }

  lemma RememberNext(s: Seen, bundles: seq<Bundle>, i: nat)
    requires i < |bundles| && Remembers(s, bundles[..i])
    ensures Remembers(Remember(s, bundles[i]), bundles[..i + 1])
  {
    var b, before, after := bundles[i], bundles[..i], bundles[..i + 1];
    NextTotals(bundles, i);
    assert after == before + [b];
    IdsAre(b);
    hide ChunkTotal, ByteTotal, HasChunkId, HasCitation, ChunkIds, Citations, AnyDocument, AnyChunkId, AnyCitation;
    forall id
      ensures AnyDocument(after, id) <==> AnyDocument(before, id) || b.manifest.documentId == id
      ensures AnyChunkId(after, id) <==> AnyChunkId(before, id) || HasChunkId(b, id)
      ensures AnyCitation(after, id) <==> AnyCitation(before, id) || HasCitation(b, id)
    {
      AnySnoc(before, b, id);
    }
  }

  lemma AnySnoc(before: seq<Bundle>, b: Bundle, id: string)
    ensures AnyDocument(before + [b], id) <==> AnyDocument(before, id) || b.manifest.documentId == id
    ensures AnyChunkId(before + [b], id) <==> AnyChunkId(before, id) || HasChunkId(b, id)
    ensures AnyCitation(before + [b], id) <==> AnyCitation(before, id) || HasCitation(b, id)
  {
    hide HasChunkId, HasCitation;
    ExistsSnoc(before, b, (x: Bundle) => x.manifest.documentId == id);
    ExistsSnoc(before, b, (x: Bundle) => HasChunkId(x, id));
    ExistsSnoc(before, b, (x: Bundle) => HasCitation(x, id));
  }

  lemma ExistsSnoc(before: seq<Bundle>, b: Bundle, p: Bundle -> bool)
    ensures (exists j | 0 <= j < |before| + 1 :: p((before + [b])[j]))
       <==> (exists j | 0 <= j < |before| :: p(before[j])) || p(b)
  {
    var after := before + [b];
    if j :| 0 <= j < |before| && p(before[j]) {
      assert p(after[j]);
    }
    if p(b) {
      assert p(after[|before|]);
    }
  }

  lemma NextTotals(bundles: seq<Bundle>, i: nat)
    requires i < |bundles|
    ensures ChunkTotal(bundles[..i + 1]) == ChunkTotal(bundles[..i]) + |bundles[i].chunks|
    ensures ByteTotal(bundles[..i + 1]) == ByteTotal(bundles[..i]) + bundles[i].totalBytes
  {
    assert bundles[..i + 1][..i] == bundles[..i];
  }

  lemma IdsAre(b: Bundle)
    ensures forall id :: id in ChunkIds(b) <==> HasChunkId(b, id)
    ensures forall id :: id in Citations(b) <==> HasCitation(b, id)
  {
  }

  /** What the accumulators make of the next bundle. */
  ghost predicate Admissible(sha: Hash, context: Context, limits: Limits, now: Time, s: Seen, b: Bundle) {
    && BundleOk(sha, context, now, b)
    && b.manifest.documentId !in s.versions
    && (forall id | id in ChunkIds(b) :: id !in s.chunkIds)
    && (forall id | id in Citations(b) :: id !in s.citations)
    && s.documents + 1 <= limits.maximumDocuments && s.chunks + |b.chunks| <= limits.maximumChunks
    && s.bytes + b.totalBytes <= limits.maximumBytes
  }

  method CheckBundle(sha: Hash, context: Context, limits: Limits, now: Time, s: Seen, b: Bundle)
    returns (r: Result<Seen, PlanError>)
    ensures r.Ok? <==> Admissible(sha, context, limits, now, s, b)
    ensures r.Ok? ==> r.value == Remember(s, b)
    ensures r != Err(BundleCount)
    ensures r == Err(InvalidBundle) <==> !(b.totalBytes >= 1 && b.totalChunks >= 1)
    ensures b.totalBytes >= 1 && b.totalChunks >= 1 && b.manifest.documentId in s.versions ==>
      r == Err(if s.versions[b.manifest.documentId] != b.manifest.version then ConflictingVersions
               else DuplicateDocument)
  {
    if b.totalBytes < 1 || b.totalChunks < 1 {
      return Err(InvalidBundle);
    }
    if b.manifest.documentId in s.versions {
      return Err(if s.versions[b.manifest.documentId] != b.manifest.version then ConflictingVersions
                 else DuplicateDocument);
    }
    for i := 0 to |b.chunks|
      invariant forall j | 0 <= j < i :: b.chunks[j].chunkId !in s.chunkIds && b.chunks[j].citationId !in s.citations
    {
      if b.chunks[i].chunkId in s.chunkIds {
        assert b.chunks[i].chunkId in ChunkIds(b);
        return Err(DuplicateChunk);
      }
      if b.chunks[i].citationId in s.citations {
        assert b.chunks[i].citationId in Citations(b);
        return Err(DuplicateCitation);
      }
    }
    hide *;
    r := CheckRest(sha, context, limits, now, s, b);
  }

  /** The checks that follow the search for duplicates. */
  method CheckRest(sha: Hash, context: Context, limits: Limits, now: Time, s: Seen, b: Bundle)
    returns (r: Result<Seen, PlanError>)
    requires b.totalBytes >= 1 && b.totalChunks >= 1 && b.manifest.documentId !in s.versions
    requires forall j | 0 <= j < |b.chunks| ::
      b.chunks[j].chunkId !in s.chunkIds && b.chunks[j].citationId !in s.citations
    ensures r.Ok? <==> Admissible(sha, context, limits, now, s, b)
    ensures r.Ok? ==> r.value == Remember(s, b)
    ensures r.Err? ==> r.error in {BadMetadata, OutsideNamespace, OutsideCustomer, MissingModule, Expired,
                                   Unsupported, LimitsExceeded}
  {
    var problem := CheckScope(sha, context, now, b);
    var next := Remember(s, b);
    RestIff(sha, context, limits, now, s, b);
    hide *;
    if problem.Some? {
      return Err(problem.value);
    }
    if next.documents > limits.maximumDocuments || next.chunks > limits.maximumChunks
       || next.bytes > limits.maximumBytes {
      return Err(LimitsExceeded);
    }
    r := Ok(next);
  }

  lemma RestIff(sha: Hash, context: Context, limits: Limits, now: Time, s: Seen, b: Bundle)
    requires b.manifest.documentId !in s.versions
    requires forall j | 0 <= j < |b.chunks| ::
      b.chunks[j].chunkId !in s.chunkIds && b.chunks[j].citationId !in s.citations
    ensures var next := Remember(s, b);
      Admissible(sha, context, limits, now, s, b) <==>
        && BundleOk(sha, context, now, b) && next.documents <= limits.maximumDocuments
        && next.chunks <= limits.maximumChunks && next.bytes <= limits.maximumBytes
  {
    IdsAbsent(s, b);
    hide BundleOk, ChunkIds, Citations;
  }

  lemma IdsAbsent(s: Seen, b: Bundle)
    requires forall j | 0 <= j < |b.chunks| ::
      b.chunks[j].chunkId !in s.chunkIds && b.chunks[j].citationId !in s.citations
    ensures forall id | id in ChunkIds(b) :: id !in s.chunkIds
    ensures forall id | id in Citations(b) :: id !in s.citations
  {
  }

  /** The checks of one bundle against the trusted context. */
  method CheckScope(sha: Hash, context: Context, now: Time, b: Bundle) returns (problem: Option<PlanError>)
    requires b.totalBytes >= 1 && b.totalChunks >= 1
    ensures problem.None? <==> BundleOk(sha, context, now, b)
    ensures problem.Some? ==> problem.value in {BadMetadata, OutsideNamespace, OutsideCustomer, MissingModule, Expired,
                                                Unsupported}
  {
    hide MetadataValid, GovernanceOk;
    var valid := ValidateChunkMetadata(sha, b);
    if !valid {
      return Some(BadMetadata);
    }
    if b.manifest.namespace != context.namespace {
      return Some(OutsideNamespace);
    }
    if b.manifest.sourceType.ProductDocumentation? {
      if b.manifest.customer != None {
        return Some(OutsideCustomer);
      }
    } else if b.manifest.customer != Some(context.customer) {
      return Some(OutsideCustomer);
    }
    SharedGovernance(sha, b);
    problem := CheckGovernance(context, now, b);
  }

  method CheckGovernance(context: Context, now: Time, b: Bundle) returns (problem: Option<PlanError>)
    requires b.chunks != [] && forall i | 0 <= i < |b.chunks| :: b.chunks[i].governance == b.chunks[0].governance
    ensures problem.None? <==> GovernanceOk(context, now, b.chunks[0].governance)
    ensures problem.Some? ==> problem.value in {MissingModule, Expired, Unsupported}
  {
    if exists m | m in b.chunks[0].governance.modules :: m !in context.installedModules {
      return Some(MissingModule);
    }
    if exists i | 0 <= i < |b.chunks| ::
        b.chunks[i].governance.effectiveTo.Some? && b.chunks[i].governance.effectiveTo.value <= now {
      return Some(Expired);
    }
    if exists i | 0 <= i < |b.chunks| :: b.chunks[i].governance.classification == HighlyRestricted {
      return Some(Unsupported);
    }
    problem := None;
  }

  lemma SharedGovernance(sha: Hash, b: Bundle)
    requires MetadataValid(sha, b)
    ensures b.chunks != [] && forall i | 0 <= i < |b.chunks| :: b.chunks[i].governance == b.chunks[0].governance
  {
    hide OpaqueId, Fingerprint;
    forall i | 0 <= i < |b.chunks|
      ensures b.chunks[i].governance == b.chunks[0].governance
    {
      assert ChunkMatches(sha, b.manifest, b.chunks[0].governance, b.chunks[i], i);
    }
  }

  /** The bundles read so far pass, and the limits still hold. */
  ghost predicate PrefixOk(sha: Hash, context: Context, limits: Limits, now: Time, bundles: seq<Bundle>) {
    && (forall i | 0 <= i < |bundles| :: BundleOk(sha, context, now, bundles[i]))
    && AllSeparate(bundles) && |bundles| <= limits.maximumDocuments
    && ChunkTotal(bundles) <= limits.maximumChunks && ByteTotal(bundles) <= limits.maximumBytes
  }

  lemma PrefixNext(sha: Hash, context: Context, limits: Limits, now: Time, bundles: seq<Bundle>, i: nat, s: Seen)
    requires i < |bundles| && Remembers(s, bundles[..i])
    ensures PrefixOk(sha, context, limits, now, bundles[..i + 1]) <==>
      PrefixOk(sha, context, limits, now, bundles[..i]) && Admissible(sha, context, limits, now, s, bundles[i])
  {
    var b, before, after := bundles[i], bundles[..i], bundles[..i + 1];
    assert after == before + [b];
    NextTotals(bundles, i);
    SeparateNext(before, b, s);
    assert forall j | 0 <= j < i :: after[j] == before[j];
    assert after[i] == b;
    hide BundleOk, Separate, AllSeparate, ChunkTotal, ByteTotal, ChunkIds, Citations;
    assert s.documents == |before| && s.chunks == ChunkTotal(before) && s.bytes == ByteTotal(before);
    hide Remembers;
  }

  lemma SeparateNext(before: seq<Bundle>, b: Bundle, s: Seen)
    requires Remembers(s, before)
    ensures AllSeparate(before + [b]) <==>
      && AllSeparate(before) && b.manifest.documentId !in s.versions
      && (forall id | id in ChunkIds(b) :: id !in s.chunkIds)
      && (forall id | id in Citations(b) :: id !in s.citations)
  {
    IdsAre(b);
    SeparateSnoc(before, b);
    hide AllSeparate, ChunkIds, Citations, HasChunkId, HasCitation, ChunkTotal, ByteTotal;
    if forall j | 0 <= j < |before| :: Separate(before[j], b) {
      forall id | HasChunkId(b, id)
        ensures id !in s.chunkIds
      {
      }
      forall id | HasCitation(b, id)
        ensures id !in s.citations
      {
      }
    }
  }

  lemma SeparateSnoc(before: seq<Bundle>, b: Bundle)
    ensures AllSeparate(before + [b]) <==> AllSeparate(before) && forall j | 0 <= j < |before| :: Separate(before[j], b)
  {
    hide Separate;
    var after := before + [b];
    assert forall j | 0 <= j < |before| :: after[j] == before[j];
    assert after[|before|] == b;
  }

  method BuildPlan(sha: Hash, context: Context, bundles: seq<Bundle>, limits: Limits, now: Time,
                   generation: Uuid, outboxId: Uuid) returns (r: Result<Plan, PlanError>)
    ensures r.Ok? <==> Accepts(sha, context, limits, now, bundles)
    ensures r == Err(BundleCount) <==> bundles == [] || |bundles| > limits.maximumBundles
    ensures r.Ok? ==> r.value == PlanOf(sha, context, Sort(bundles, BundleLe), generation, outboxId)
  {
    if |bundles| > limits.maximumBundles || bundles == [] {
      return Err(BundleCount);
    }
    var seen := NOTHING;
    NothingRemembered();
    hide *;
    EmptyPrefix(sha, context, limits, now);
    for i := 0 to |bundles|
      invariant Remembers(seen, bundles[..i]) && PrefixOk(sha, context, limits, now, bundles[..i])
    {
      PrefixNext(sha, context, limits, now, bundles, i, seen);
      RememberNext(seen, bundles, i);
      var checked := CheckBundle(sha, context, limits, now, seen, bundles[i]);
      if checked.Err? {
        AcceptsPrefix(sha, context, limits, now, bundles, i + 1);
        AcceptsCount(sha, context, limits, now, bundles);
        return Err(checked.error);
      }
      seen := checked.value;
    }
    assert bundles[..|bundles|] == bundles;
    AcceptsCount(sha, context, limits, now, bundles);
    TotalsRemembered(seen, bundles);
    var scope := ScopeOfContext(context);
    var ordered := Sort(bundles, BundleLe);
    SortedTotals(bundles, ordered);
    var digest := Compute(sha, scope, ordered);
    PlanIs(sha, context, ordered, generation, outboxId, seen.chunks, seen.bytes, digest);
    r := Ok(Plan(context,
                 GenerationManifest(generation, scope, digest, |ordered|, seen.chunks, seen.bytes),
                 ordered,
                 Digest(sha, Pair("generation", Text(digest), "scope", ScopeJson(scope))),
                 AuditEvent(outboxId, context.operationId, context.requestId, context.actorId, context.namespace,
                            generation, digest)));
  }

  lemma PlanIs(sha: Hash, context: Context, ordered: seq<Bundle>, generation: Uuid, outboxId: Uuid,
               chunks: nat, bytes: nat, digest: string)
    requires chunks == ChunkTotal(ordered) && bytes == ByteTotal(ordered)
    requires digest == sha(Stream(Objects(sha, ScopeOfContext(context), ordered)))
    ensures PlanOf(sha, context, ordered, generation, outboxId)
         == Plan(context,
                 GenerationManifest(generation, ScopeOfContext(context), digest, |ordered|, chunks, bytes),
                 ordered,
                 Digest(sha, Pair("generation", Text(digest), "scope", ScopeJson(ScopeOfContext(context)))),
                 AuditEvent(outboxId, context.operationId, context.requestId, context.actorId, context.namespace,
                            generation, digest))
  {
  }

  lemma TotalsRemembered(s: Seen, bundles: seq<Bundle>)
    requires Remembers(s, bundles)
    ensures s.chunks == ChunkTotal(bundles) && s.bytes == ByteTotal(bundles)
  {
  }

  lemma EmptyPrefix(sha: Hash, context: Context, limits: Limits, now: Time)
    ensures PrefixOk(sha, context, limits, now, [])
  {
  }

  lemma {:induction false} TotalsGrow(bundles: seq<Bundle>, i: nat)
    requires i <= |bundles|
    ensures ChunkTotal(bundles[..i]) <= ChunkTotal(bundles) && ByteTotal(bundles[..i]) <= ByteTotal(bundles)
    decreases |bundles| - i
  {
    if i == |bundles| {
      assert bundles[..i] == bundles;
    } else {
      NextTotals(bundles, i);
      TotalsGrow(bundles, i + 1);
    }
  }

  /** Every prefix of an acceptable list passes. */
  lemma AcceptsPrefix(sha: Hash, context: Context, limits: Limits, now: Time, bundles: seq<Bundle>, i: nat)
    requires i <= |bundles|
    ensures Accepts(sha, context, limits, now, bundles) ==> PrefixOk(sha, context, limits, now, bundles[..i])
  {
    TotalsGrow(bundles, i);
    hide BundleOk, Separate, ChunkTotal, ByteTotal;
  }

  lemma AcceptsCount(sha: Hash, context: Context, limits: Limits, now: Time, bundles: seq<Bundle>)
    ensures Accepts(sha, context, limits, now, bundles) <==>
      1 <= |bundles| <= limits.maximumBundles && PrefixOk(sha, context, limits, now, bundles)
  {
    hide BundleOk, AllSeparate, ChunkTotal, ByteTotal;
  }

  // --- the order of the input ----------------------------------------------------------------

  lemma {:induction false} TotalsConcat(a: seq<Bundle>, b: seq<Bundle>)
    ensures ChunkTotal(a + b) == ChunkTotal(a) + ChunkTotal(b) && ByteTotal(a + b) == ByteTotal(a) + ByteTotal(b)
  {
    if b == [] {
      assert a + b == a;
    } else {
      var n := |b| - 1;
      var all := a + b;
      assert all[..|all| - 1] == a + b[..n];
      TotalsConcat(a, b[..n]);
    }
  }

  /** Totals do not depend on the order. */
  lemma {:induction false} TotalsPermute(a: seq<Bundle>, b: seq<Bundle>)
    requires multiset(a) == multiset(b)
    ensures ChunkTotal(a) == ChunkTotal(b) && ByteTotal(a) == ByteTotal(b)
  {
    if a == [] {
      assert |multiset(b)| == |multiset(a)| == 0;
    } else {
      var n := |a| - 1;
      assert a == a[..n] + [a[n]];
      assert a[n] in multiset(a) && a[n] in multiset(b);
      var i :| 0 <= i < |b| && b[i] == a[n];
      WithoutOne(b, i);
      TotalsPermute(a[..n], b[..i] + b[i + 1..]);
    }
  }

  lemma WithoutOne(b: seq<Bundle>, i: nat)
    requires i < |b|
    ensures var rest := b[..i] + b[i + 1..];
      && multiset(rest) == multiset(b) - multiset{b[i]}
      && ChunkTotal(b) == ChunkTotal(rest) + |b[i].chunks| && ByteTotal(b) == ByteTotal(rest) + b[i].totalBytes
  {
    MultisetWithout(b, i);
    assert b == b[..i + 1] + b[i + 1..];
    NextTotals(b, i);
    TotalsConcat(b[..i + 1], b[i + 1..]);
    TotalsConcat(b[..i], b[i + 1..]);
  }

  lemma SortedTotals(bundles: seq<Bundle>, ordered: seq<Bundle>)
    requires ordered == Sort(bundles, BundleLe)
    ensures ChunkTotal(ordered) == ChunkTotal(bundles) && ByteTotal(ordered) == ByteTotal(bundles)
  {
    TotalsPermute(ordered, bundles);
  }

  lemma SeparateSymmetric(a: Bundle, b: Bundle)
    ensures Separate(a, b) ==> Separate(b, a)
  {
  }

  /** Pairwise separation as a property of the elements. */
  lemma SeparateElements(bundles: seq<Bundle>)
    ensures AllSeparate(bundles) <==>
      Distinct(bundles) && forall x, y | x in bundles && y in bundles && x != y :: Separate(x, y)
  {
    assert forall x :: !Separate(x, x);
    hide Separate;
    if AllSeparate(bundles) {
      forall x, y | x in bundles && y in bundles && x != y
        ensures Separate(x, y)
      {
        var i :| 0 <= i < |bundles| && bundles[i] == x;
        var j :| 0 <= j < |bundles| && bundles[j] == y;
        SeparateSymmetric(bundles[j], bundles[i]);
      }
    }
  }

  /** Acceptance does not depend on the order. */
  lemma AcceptsPermutes(sha: Hash, context: Context, limits: Limits, now: Time, a: seq<Bundle>, b: seq<Bundle>)
    requires multiset(a) == multiset(b) && Accepts(sha, context, limits, now, a)
    ensures Accepts(sha, context, limits, now, b)
  {
    SameElements(a, b);
    TotalsPermute(a, b);
    SeparateElements(a);
    SeparateElements(b);
    hide Separate, AllSeparate, BundleOk, ChunkTotal, ByteTotal;
    PermutationDistinct(a, b);
    forall i | 0 <= i < |b|
      ensures BundleOk(sha, context, now, b[i])
    {
      assert b[i] in a;
    }
  }

  lemma BundleOrder(bundles: seq<Bundle>)
    requires AllSeparate(bundles)
    ensures OrderOn(bundles, BundleLe) && NoTies(bundles, BundleLe)
  {
    SeparateElements(bundles);
    forall x, y | x in bundles && y in bundles
      ensures BundleLe(x, y) || BundleLe(y, x)
      ensures BundleLe(x, y) && BundleLe(y, x) ==> x == y
    {
      StringLeTotal(x.manifest.documentId, y.manifest.documentId);
      StringLeTotal(x.manifest.version, y.manifest.version);
      assert x != y ==> Separate(x, y);
    }
    forall x, y, z | x in bundles && y in bundles && z in bundles && BundleLe(x, y) && BundleLe(y, z)
      ensures BundleLe(x, z)
    {
      BundleLeTransitive(x, y, z);
    }
  }

  lemma BundleLeTransitive(x: Bundle, y: Bundle, z: Bundle)
    requires BundleLe(x, y) && BundleLe(y, z)
    ensures BundleLe(x, z)
  {
    var a, b, c := x.manifest, y.manifest, z.manifest;
    if a.documentId == b.documentId == c.documentId {
      StringLeTransitive(a.version, b.version, c.version);
    } else if a.documentId != b.documentId && b.documentId != c.documentId {
      StringLeTransitive(a.documentId, b.documentId, c.documentId);
      if a.documentId == c.documentId {
        StringLeTotal(a.documentId, b.documentId);
      }
    }
  }

  /** A list is accepted exactly when each of its permutations is, and the plans are the same:
      the same ordered bundles, digests and totals. */
  lemma OrderDoesNotMatter(sha: Hash, context: Context, limits: Limits, now: Time, a: seq<Bundle>, b: seq<Bundle>,
                           generation: Uuid, outboxId: Uuid)
    requires multiset(a) == multiset(b)
    ensures Accepts(sha, context, limits, now, a) <==> Accepts(sha, context, limits, now, b)
    ensures Accepts(sha, context, limits, now, a) ==>
      PlanOf(sha, context, Sort(a, BundleLe), generation, outboxId)
      == PlanOf(sha, context, Sort(b, BundleLe), generation, outboxId)
  {
    if Accepts(sha, context, limits, now, a) {
      AcceptsPermutes(sha, context, limits, now, a, b);
      assert AllSeparate(a);
      hide Accepts, PlanOf, AllSeparate;
      BundleOrder(a);
      SortCanonical(a, b, BundleLe);
    } else if Accepts(sha, context, limits, now, b) {
      AcceptsPermutes(sha, context, limits, now, b, a);
    }
  }

  /** The operation digest of a plan covers its scope and, through the generation digest, all it
      publishes; the generation id and the caller's names play no part in it. */
  lemma OperationDigestsDiffer(sha: Hash, c: Context, a: seq<Bundle>, g: Uuid, o: Uuid, d: Context, b: seq<Bundle>,
                               h: Uuid, p: Uuid)
    requires Injective(sha)
    ensures var x, y := PlanOf(sha, c, a, g, o), PlanOf(sha, d, b, h, p);
      x.operationDigest == y.operationDigest <==>
        c.customer == d.customer && c.namespace == d.namespace && SameRecords(sha, a, b) && ByteTotal(a) == ByteTotal(b)
  {
    var s, t := ScopeOfContext(c), ScopeOfContext(d);
    var u, v := sha(Stream(Objects(sha, s, a))), sha(Stream(Objects(sha, t, b)));
    OperationDigestIs(sha, c, a, g, o);
    OperationDigestIs(sha, d, b, h, p);
    assert s == t <==> c.customer == d.customer && c.namespace == d.namespace;
    hide PlanOf, Objects, Stream, SameRecords, ByteTotal, ScopeOfContext, Serialize;
    StreamsEqualIff(sha, s, a, t, b);
    assert u == v <==> Stream(Objects(sha, s, a)) == Stream(Objects(sha, t, b));
    if Digest(sha, OperationJson(u, s)) == Digest(sha, OperationJson(v, t)) {
      SerializeInjective(OperationJson(u, s), OperationJson(v, t));
    }
  }

  function OperationJson(digest: string, scope: Scope): Json {
    Pair("generation", Text(digest), "scope", ScopeJson(scope))
  }

  lemma OperationDigestIs(sha: Hash, context: Context, ordered: seq<Bundle>, generation: Uuid, outboxId: Uuid)
    ensures PlanOf(sha, context, ordered, generation, outboxId).operationDigest ==
      Digest(sha, OperationJson(sha(Stream(Objects(sha, ScopeOfContext(context), ordered))), ScopeOfContext(context)))
  {
    hide Objects, Stream, Serialize;
  }

  /** The sorted bundles of an accepted list are strictly ordered by document id. */
  lemma OrderedByDocument(bundles: seq<Bundle>)
    requires AllSeparate(bundles)
    ensures var s := Sort(bundles, BundleLe);
      forall i, j | 0 <= i < j < |s| ::
        StringLe(s[i].manifest.documentId, s[j].manifest.documentId)
        && s[i].manifest.documentId != s[j].manifest.documentId
  {
    var s := Sort(bundles, BundleLe);
    BundleOrder(bundles);
    SortSorts(bundles, BundleLe);
    SortedSeparate(bundles);
    hide Sort;
    forall i, j | 0 <= i < j < |s|
      ensures StringLe(s[i].manifest.documentId, s[j].manifest.documentId)
      ensures s[i].manifest.documentId != s[j].manifest.documentId
    {
      assert BundleLe(s[i], s[j]) && Separate(s[i], s[j]);
    }
  }

  lemma SortedSeparate(bundles: seq<Bundle>)
    requires AllSeparate(bundles)
    ensures AllSeparate(Sort(bundles, BundleLe))
  {
    var s := Sort(bundles, BundleLe);
    hide AllSeparate, Separate;
    SeparateElements(bundles);
    SeparateElements(s);
    SameElements(bundles, s);
    PermutationDistinct(bundles, s);
  }
}
