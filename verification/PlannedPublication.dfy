/** Publishing what the planner planned: an accepted plan always fits the tables, so only the
    state of the database decides whether its publication succeeds. */
module PlannedPublication {
  import opened Wrappers
  import opened Ordering
  import opened KnowledgeModels
  import G = GenerationDigest
  import N = PublicationPlan
  import opened Publication
  import opened PublicationSafety
  import opened PublicationOutcome
  import opened PublicationAnswers

  /** The opaque ids inside one document do not collide: they are 128-bit prefixes of digests of
      distinct values, which nothing but the hash keeps apart. */
  ghost predicate IdsDistinct(b: Bundle) {
    forall i, j | 0 <= i < j < |b.chunks| ::
      b.chunks[i].chunkId != b.chunks[j].chunkId && b.chunks[i].citationId != b.chunks[j].citationId
  }

  /** Chunks that say where they belong: document by document, ordinal by ordinal. */
  ghost predicate Placed(sha: G.Hash, bundles: seq<Bundle>) {
    && N.AllSeparate(bundles)
    && forall i | 0 <= i < |bundles| :: N.MetadataValid(sha, bundles[i])
  }

  /** Chunk `k` of all the chunks is chunk `c` of bundle `b`. */
  predicate At(bundles: seq<Bundle>, all: seq<Chunk>, k: nat, b: nat, c: nat) {
    k < |all| && b < |bundles| && c < |bundles[b].chunks| && all[k] == bundles[b].chunks[c]
  }

  /** Every position has its place, and later positions have later places. */
  lemma {:induction false} PlacesInOrder(bundles: seq<Bundle>, j: nat, k: nat) returns (b: nat, c: nat, e: nat, f: nat)
    requires j < k < |AllChunks(bundles)|
    ensures At(bundles, AllChunks(bundles), j, b, c) && At(bundles, AllChunks(bundles), k, e, f)
    ensures b < e || (b == e && c < f)
  {
    var n := |bundles| - 1;
    var init := AllChunks(bundles[..n]);
    if k < |init| {
      b, c, e, f := PlacesInOrder(bundles[..n], j, k);
    } else {
      e, f := n, k - |init|;
      if j < |init| {
        b, c := PlaceOf(bundles[..n], j);
      } else {
        b, c := n, j - |init|;
      }
    }
  }

  lemma {:induction false} PlaceOf(bundles: seq<Bundle>, k: nat) returns (b: nat, c: nat)
    requires k < |AllChunks(bundles)|
    ensures At(bundles, AllChunks(bundles), k, b, c)
  {
    var n := |bundles| - 1;
    var init := AllChunks(bundles[..n]);
    if k < |init| {
      b, c := PlaceOf(bundles[..n], k);
    } else {
      b, c := n, k - |init|;
    }
  }

  lemma MetadataAt(sha: G.Hash, b: Bundle, i: nat)
    requires N.MetadataValid(sha, b) && i < |b.chunks|
    ensures b.chunks[i].ordinal == i && b.chunks[i].documentId == b.manifest.documentId
  {
    hide N.OpaqueId, N.Fingerprint;
    assert N.ChunkMatches(sha, b.manifest, b.chunks[0].governance, b.chunks[i], i);
  }

  lemma DifferentBundles(a: Bundle, b: Bundle, i: nat, j: nat)
    requires N.Separate(a, b) && i < |a.chunks| && j < |b.chunks|
    ensures a.chunks[i].chunkId != b.chunks[j].chunkId && a.chunks[i].citationId != b.chunks[j].citationId
  {
    assert N.HasChunkId(a, a.chunks[i].chunkId) && N.HasCitation(a, a.chunks[i].citationId);
    assert N.HasChunkId(b, b.chunks[j].chunkId) && N.HasCitation(b, b.chunks[j].citationId);
  }

  /** Chunks of checked bundles never collide in the tables, if ids inside a document do not. */
  lemma PlacedApart(sha: G.Hash, bundles: seq<Bundle>)
    requires Placed(sha, bundles) && forall i | 0 <= i < |bundles| :: IdsDistinct(bundles[i])
    ensures ChunksApart(AllChunks(bundles)) && Homed(AllChunks(bundles), bundles) && DistinctDocuments(bundles)
  {
    var all := AllChunks(bundles);
    forall j, k | 0 <= j < k < |all|
      ensures Apart(all[j], all[k])
    {
      var b, c, e, f := PlacesInOrder(bundles, j, k);
      MetadataAt(sha, bundles[b], c);
      MetadataAt(sha, bundles[e], f);
      hide N.MetadataValid, AllChunks, N.Separate;
      assert b < e ==> N.Separate(bundles[b], bundles[e]);
      if b < e {
        SeparateDocuments(bundles[b], bundles[e]);
        DifferentBundles(bundles[b], bundles[e], c, f);
      } else {
        assert IdsDistinct(bundles[b]);
      }
    }
    forall k | 0 <= k < |all|
      ensures HasDocument(bundles, all[k].documentId)
    {
      var b, c := PlaceOf(bundles, k);
      MetadataAt(sha, bundles[b], c);
      assert bundles[b].manifest.documentId == all[k].documentId;
    }
    forall i, j | 0 <= i < j < |bundles|
      ensures bundles[i].manifest.documentId != bundles[j].manifest.documentId
    {
      assert N.Separate(bundles[i], bundles[j]);
    }
  }

  lemma SeparateDocuments(a: Bundle, b: Bundle)
    requires N.Separate(a, b)
    ensures a.manifest.documentId != b.manifest.documentId
  {
  }

  lemma {:induction false} TotalIsLength(bundles: seq<Bundle>)
    ensures G.ChunkTotal(bundles) == |AllChunks(bundles)|
  {
    if bundles != [] {
      TotalIsLength(bundles[..|bundles| - 1]);
    }
  }

  lemma OrderedPlaced(sha: G.Hash, context: Context, limits: N.Limits, now: Time, bundles: seq<Bundle>)
    requires N.Accepts(sha, context, limits, now, bundles)
    ensures Placed(sha, Sort(bundles, N.BundleLe))
  {
    var s := Sort(bundles, N.BundleLe);
    N.SortedSeparate(bundles);
    SameElements(bundles, s);
    hide Sort, N.AllSeparate, N.MetadataValid;
    forall i | 0 <= i < |s|
      ensures N.MetadataValid(sha, s[i])
    {
      assert s[i] in bundles;
    }
  }

  /** The chunks of one bundle stand together among all the chunks. */
  lemma {:induction false} StandTogether(bundles: seq<Bundle>, b: nat) returns (start: nat)
    requires b < |bundles|
    ensures start + |bundles[b].chunks| <= |AllChunks(bundles)|
    ensures forall c | 0 <= c < |bundles[b].chunks| :: AllChunks(bundles)[start + c] == bundles[b].chunks[c]
  {
    var n := |bundles| - 1;
    var init := AllChunks(bundles[..n]);
    if b < n {
      start := StandTogether(bundles[..n], b);
    } else {
      start := |init|;
    }
  }

  /** Chunks that do not collide have different ids inside each bundle. */
  lemma ApartMeansDistinct(bundles: seq<Bundle>, b: nat)
    requires b < |bundles| && ChunksApart(AllChunks(bundles))
    ensures IdsDistinct(bundles[b])
  {
    var all, own := AllChunks(bundles), bundles[b].chunks;
    var start := StandTogether(bundles, b);
    hide AllChunks;
    forall i, j | 0 <= i < j < |own|
      ensures own[i].chunkId != own[j].chunkId && own[i].citationId != own[j].citationId
    {
      assert all[start + i] == own[i] && all[start + j] == own[j];
      assert Apart(all[start + i], all[start + j]);
    }
  }

  /** A plan built from accepted bundles can be stored - its documents are distinct, its chunks
      collide with nothing and its totals are what will be counted - exactly when the opaque ids
      inside each document differ. */
  lemma AcceptedIsStorable(sha: G.Hash, context: Context, limits: N.Limits, now: Time, bundles: seq<Bundle>,
                           generation: Uuid, outboxId: Uuid)
    requires N.Accepts(sha, context, limits, now, bundles)
    ensures var plan := N.PlanOf(sha, context, Sort(bundles, N.BundleLe), generation, outboxId);
      EventMatches(plan) && (Storable(plan) <==> forall b | b in bundles :: IdsDistinct(b))
  {
    var s := Sort(bundles, N.BundleLe);
    OrderedPlaced(sha, context, limits, now, bundles);
    SameElements(bundles, s);
    hide Sort, N.Accepts, Placed, IdsDistinct, AllChunks, ChunksApart, Homed, DistinctDocuments, G.Objects, G.ChunkTotal,
      G.ByteTotal, G.Digest;
    TotalIsLength(s);
    PlacedApartIff(sha, bundles, s);
  }

  lemma PlacedApartIff(sha: G.Hash, bundles: seq<Bundle>, s: seq<Bundle>)
    requires Placed(sha, s) && forall b :: b in s <==> b in bundles
    ensures (forall b | b in bundles :: IdsDistinct(b)) <==>
      ChunksApart(AllChunks(s)) && Homed(AllChunks(s), s) && DistinctDocuments(s)
  {
    hide Placed, IdsDistinct, AllChunks, ChunksApart, Homed, DistinctDocuments;
    if forall b | b in bundles :: IdsDistinct(b) {
      assert forall i | 0 <= i < |s| :: s[i] in s;
      PlacedApart(sha, s);
    }
    if ChunksApart(AllChunks(s)) {
      forall b | b in bundles
        ensures IdsDistinct(b)
      {
        assert b in s;
        var i :| 0 <= i < |s| && s[i] == b;
        ApartMeansDistinct(s, i);
      }
    }
  }

  /** Publishing an accepted plan as a new operation, without a fault, succeeds exactly when the
      customer's database still points where the caller expects and the two fresh ids are unused;
      and then the tables hold exactly the planned documents and chunks under an active
      generation with the planned digest. */
  lemma PublishAccepted(t: Tables, d: Publication.Digests, sha: G.Hash, context: Context, limits: N.Limits, now: Time,
                        bundles: seq<Bundle>, generation: Uuid, outboxId: Uuid, expected: Option<Uuid>)
    requires Sound(t) && N.Accepts(sha, context, limits, now, bundles)
    requires forall b | b in bundles :: IdsDistinct(b)
    requires OperationKey(context.customer, context.operationId) !in t.operations
    ensures var plan := N.PlanOf(sha, context, Sort(bundles, N.BundleLe), generation, outboxId);
      var g := GenerationKey(context.customer, generation);
      var a := CommitPublish(t, d, context.customer, plan, expected, NoFault);
      && (a.result.Ok? <==>
            && Identified(t, context.customer) && ActiveId(t, plan.manifest.scope) == expected
            && g !in t.generations && OutboxFree(t, PublishRow(plan, expected)))
      && (a.result.Ok? ==>
            && Sound(a.tables) && Holds(a.tables, d, g, plan.bundles)
            && PublishedAs(t, a.tables, d, plan, expected)
            && a.tables.outbox == t.outbox + [OutboxRow(context.customer, outboxId, context.operationId,
                 context.requestId, context.actorId, context.namespace, Publish, expected, generation,
                 plan.manifest.digest)])
  {
    var plan := N.PlanOf(sha, context, Sort(bundles, N.BundleLe), generation, outboxId);
    AcceptedIsStorable(sha, context, limits, now, bundles, generation, outboxId);
    PlanScope(sha, context, Sort(bundles, N.BundleLe), generation, outboxId);
    var p := PublishStatements(t, d, plan, expected);
    var a := CommitPublish(t, d, context.customer, plan, expected, NoFault);
    hide *;
    FaultFree(t, d, context.customer, plan, expected);
    PublishSucceedsIff(t, d, plan, expected);
    if p.result.Ok? {
      PublishKeeps(t, d, plan, expected);
      PublishWrites(t, d, plan, expected);
      AcceptedRow(t, a.tables, d, plan, expected);
    }
  }

  lemma AcceptedRow(t: Tables, u: Tables, d: Publication.Digests, plan: Plan, expected: Option<Uuid>)
    requires PublishedAs(t, u, d, plan, expected)
    ensures var e := plan.event;
      u.outbox == t.outbox + [OutboxRow(plan.manifest.scope.customer, e.outboxId, e.operationId, e.requestId,
                                        e.actorId, e.namespace, Publish, expected, e.activated, e.digest)]
  {
    hide Retires, Extends, Holds;
  }

  lemma FaultFree(t: Tables, d: Publication.Digests, customer: string, plan: Plan, expected: Option<Uuid>)
    requires plan.manifest.scope.customer == customer
    ensures var a, p := CommitPublish(t, d, customer, plan, expected, NoFault), PublishStatements(t, d, plan, expected);
      a.result == p.result && (p.result.Ok? ==> a.tables == p.tables)
  {
    hide PublishStatements;
  }

  lemma PlanScope(sha: G.Hash, context: Context, ordered: seq<Bundle>, generation: Uuid, outboxId: Uuid)
    ensures var plan := N.PlanOf(sha, context, ordered, generation, outboxId);
      && plan.manifest.scope == Scope(context.customer, context.namespace) && plan.context == context
      && plan.manifest.generation == generation && plan.bundles == ordered
      && plan.event == AuditEvent(outboxId, context.operationId, context.requestId, context.actorId, context.namespace,
                                  generation, plan.manifest.digest)
  {
  }
}
