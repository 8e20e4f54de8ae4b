/** The bytes that a generation digest covers: one canonical JSON object for the scope, one for
    every document, one for every chunk and one for the totals, concatenated without separators. */
module GenerationDigest {
  import opened Wrappers
  import opened CanonicalJson
  import opened KnowledgeModels

  type Hash = string -> string

  function Digest(sha: Hash, value: Json): string {
    sha(Serialize(value))
  }

  function Pair(a: string, x: Json, b: string, y: Json): Json {
    Object(Field(a, x, Field(b, y, End)))
  }

  function Triple(a: string, x: Json, b: string, y: Json, c: string, z: Json): Json {
    Object(Field(a, x, Field(b, y, Field(c, z, End))))
  }

  function ScopeJson(scope: Scope): Json {
    Pair("customer_environment_id", Text(scope.customer), "namespace", Text(scope.namespace))
  }

  function ProvenanceJson(p: Option<Provenance>): Json {
    match p
    case None => Null
    case Some(v) =>
      Object(Field("adapter_contract_version", Number(1), Field("catalog_version", Number(1),
        Field("parser_major_version", Number(v.parserMajor), Field("parser_name", Text("markdown-it-py"),
          Field("raw_source_sha256", Text(v.rawSha), End))))))
  }

  function ProvenanceDigest(sha: Hash, p: Option<Provenance>): string {
    Digest(sha, ProvenanceJson(p))
  }

  // --- what the digest is about --------------------------------------------------------------

  datatype DocumentRecord = DocumentRecord(documentId: string, version: string, fingerprint: string,
                                           governanceSha: string, provenanceSha: string)
  datatype ChunkRecord = ChunkRecord(chunkId: string, contentSha: string)
  datatype Summary = Summary(document: DocumentRecord, chunks: seq<ChunkRecord>)

  function ChunkRecords(sha: Hash, chunks: seq<Chunk>): (r: seq<ChunkRecord>)
    ensures |r| == |chunks|
  {
    seq(|chunks|, i requires 0 <= i < |chunks| => ChunkRecord(chunks[i].chunkId, sha(chunks[i].content)))
  }

  function Summarize(sha: Hash, bundle: Bundle): Summary {
    var m := bundle.manifest;
    Summary(DocumentRecord(m.documentId, m.version, m.fingerprint, m.governanceSha,
                           ProvenanceDigest(sha, m.provenance)),
            ChunkRecords(sha, bundle.chunks))
  }

  function Summaries(sha: Hash, bundles: seq<Bundle>): (r: seq<Summary>)
    ensures |r| == |bundles|
  {
    seq(|bundles|, i requires 0 <= i < |bundles| => Summarize(sha, bundles[i]))
  }

  function ChunkTotal(bundles: seq<Bundle>): nat {
    if bundles == [] then 0 else ChunkTotal(bundles[..|bundles| - 1]) + |bundles[|bundles| - 1].chunks|
  }

  function ByteTotal(bundles: seq<Bundle>): nat {
    if bundles == [] then 0 else ByteTotal(bundles[..|bundles| - 1]) + bundles[|bundles| - 1].totalBytes
  }

  // --- the objects fed to the hash -----------------------------------------------------------

  function Header(scope: Scope): Json {
    Pair("contract", Number(1), "scope", ScopeJson(scope))
  }

  function DocumentJson(d: DocumentRecord): Json {
    Object(Field("document_fingerprint", Text(d.fingerprint), Field("document_id", Text(d.documentId),
      Field("governance_fingerprint", Text(d.governanceSha),
        Field("source_provenance_fingerprint", Text(d.provenanceSha), Field("version", Text(d.version), End))))))
  }

  function ChunkJson(c: ChunkRecord): Json {
    Pair("chunk_id", Text(c.chunkId), "content_sha256", Text(c.contentSha))
  }

  function Footer(documents: nat, chunks: nat, bytes: nat): Json {
    Triple("chunk_count", Number(chunks), "document_count", Number(documents),
           "total_normalized_bytes", Number(bytes))
  }

  function ChunkObjects(chunks: seq<ChunkRecord>): seq<Json> {
    if chunks == [] then [] else [ChunkJson(chunks[0])] + ChunkObjects(chunks[1..])
  }

  function Body(summaries: seq<Summary>): seq<Json> {
    if summaries == [] then []
    else [DocumentJson(summaries[0].document)] + ChunkObjects(summaries[0].chunks) + Body(summaries[1..])
  }

  function Objects(sha: Hash, scope: Scope, bundles: seq<Bundle>): seq<Json> {
    [Header(scope)] + Body(Summaries(sha, bundles))
    + [Footer(|bundles|, ChunkTotal(bundles), ByteTotal(bundles))]
  }

  // --- the order of the keys -----------------------------------------------------------------

  ghost predicate KeyBefore(a: string, b: string, i: nat) {
    i < |a| && i < |b| && a[..i] == b[..i] && a[i] < b[i]
  }

  /** The keys ascend strictly by their first different character, at every depth. */
  ghost predicate KeysAscend(j: Json) {
    j.Object? ==> FieldsAscend(j.fields)
  }

  ghost predicate FieldsAscend(f: Fields) {
    f.Field? ==>
      && KeysAscend(f.value) && FieldsAscend(f.rest)
      && (f.rest.Field? ==> exists i :: KeyBefore(f.key, f.rest.key, i))
  }

  lemma PairAscends(a: string, x: Json, b: string, y: Json, i: nat)
    requires KeyBefore(a, b, i) && KeysAscend(x) && KeysAscend(y)
    ensures KeysAscend(Pair(a, x, b, y))
  {
    var last := Field(b, y, End);
    assert FieldsAscend(last);
    assert FieldsAscend(Field(a, x, last));
  }

  lemma FieldAscends(a: string, x: Json, rest: Fields, i: nat)
    requires rest.Field? && KeyBefore(a, rest.key, i) && KeysAscend(x) && FieldsAscend(rest)
    ensures FieldsAscend(Field(a, x, rest))
  {
  }

  lemma HeaderAscends(scope: Scope)
    ensures KeysAscend(Header(scope)) && KeysAscend(ScopeJson(scope))
  {
    PairAscends("customer_environment_id", Text(scope.customer), "namespace", Text(scope.namespace), 0);
    PairAscends("contract", Number(1), "scope", ScopeJson(scope), 0);
  }

  lemma DocumentKeys()
    ensures KeyBefore("document_fingerprint", "document_id", 9) && KeyBefore("document_id", "governance_fingerprint", 0)
    ensures KeyBefore("governance_fingerprint", "source_provenance_fingerprint", 0)
    ensures KeyBefore("source_provenance_fingerprint", "version", 0)
  {
  }

  lemma DocumentAscends(d: DocumentRecord)
    ensures KeysAscend(DocumentJson(d))
  {
    DocumentKeys();
    var version := Field("version", Text(d.version), End);
    assert FieldsAscend(version);
    hide FieldsAscend, KeyBefore;
    FieldAscends("source_provenance_fingerprint", Text(d.provenanceSha), version, 0);
    var source := Field("source_provenance_fingerprint", Text(d.provenanceSha), version);
    FieldAscends("governance_fingerprint", Text(d.governanceSha), source, 0);
    var governance := Field("governance_fingerprint", Text(d.governanceSha), source);
    FieldAscends("document_id", Text(d.documentId), governance, 0);
    FieldAscends("document_fingerprint", Text(d.fingerprint), Field("document_id", Text(d.documentId), governance), 9);
  }

  lemma ProvenanceKeys()
    ensures KeyBefore("adapter_contract_version", "catalog_version", 0)
    ensures KeyBefore("catalog_version", "parser_major_version", 0)
    ensures KeyBefore("parser_major_version", "parser_name", 7) && KeyBefore("parser_name", "raw_source_sha256", 0)
  {
  }

  lemma ProvenanceAscends(p: Option<Provenance>)
    ensures KeysAscend(ProvenanceJson(p))
  {
    if p.Some? {
      ProvenanceKeys();
      var raw := Field("raw_source_sha256", Text(p.value.rawSha), End);
      assert FieldsAscend(raw);
      hide FieldsAscend, KeyBefore;
      FieldAscends("parser_name", Text("markdown-it-py"), raw, 0);
      var name := Field("parser_name", Text("markdown-it-py"), raw);
      FieldAscends("parser_major_version", Number(p.value.parserMajor), name, 7);
      var major := Field("parser_major_version", Number(p.value.parserMajor), name);
      FieldAscends("catalog_version", Number(1), major, 0);
      FieldAscends("adapter_contract_version", Number(1), Field("catalog_version", Number(1), major), 0);
    }
  }

  lemma FooterAscends(documents: nat, chunks: nat, bytes: nat)
    ensures KeysAscend(Footer(documents, chunks, bytes))
  {
    var total := Field("total_normalized_bytes", Number(bytes), End);
    FieldAscends("document_count", Number(documents), total, 0);
    FieldAscends("chunk_count", Number(chunks), Field("document_count", Number(documents), total), 0);
  }

  lemma {:induction false} ChunksAscend(chunks: seq<ChunkRecord>)
    ensures forall j | j in ChunkObjects(chunks) :: KeysAscend(j)
  {
    if chunks != [] {
      PairAscends("chunk_id", Text(chunks[0].chunkId), "content_sha256", Text(chunks[0].contentSha), 1);
      ChunksAscend(chunks[1..]);
    }
    hide Pair;
  }

  lemma {:induction false} BodyAscends(summaries: seq<Summary>)
    ensures forall j | j in Body(summaries) :: KeysAscend(j)
  {
    if summaries != [] {
      DocumentAscends(summaries[0].document);
      ChunksAscend(summaries[0].chunks);
      BodyAscends(summaries[1..]);
    }
    hide DocumentJson, ChunkObjects;
  }

  /** Every object that the hash covers has its keys in order, so no order of building a
      dictionary shows in a digest. */
  lemma ObjectsAscend(sha: Hash, scope: Scope, bundles: seq<Bundle>, p: Option<Provenance>)
    ensures forall j | j in Objects(sha, scope, bundles) :: KeysAscend(j)
    ensures KeysAscend(ProvenanceJson(p))
  {
    HeaderAscends(scope);
    BodyAscends(Summaries(sha, bundles));
    FooterAscends(|bundles|, ChunkTotal(bundles), ByteTotal(bundles));
    ProvenanceAscends(p);
    hide KeysAscend, Header, Footer, Body, ProvenanceJson;
  }

  // --- the loop ------------------------------------------------------------------------------

  /** Feed one document and its chunks. */
  method Feed(sha: Hash, summary: Summary, before: string) returns (fed: string)
    ensures fed == before + Stream([DocumentJson(summary.document)] + ChunkObjects(summary.chunks))
  {
    var document, records := DocumentJson(summary.document), summary.chunks;
    fed := before + Serialize(document);
    StreamOne(document);
    NoChunkObjects(records);
    assert [document] + [] == [document];
    hide *;
    for j := 0 to |records|
      invariant fed == before + Stream([document] + ChunkObjects(records[..j]))
    {
      ChunkObjectsSnoc(records, j);
      ghost var done := [document] + ChunkObjects(records[..j]);
      StreamSnoc(done, ChunkJson(records[j]));
      assert [document] + (ChunkObjects(records[..j]) + [ChunkJson(records[j])]) == done + [ChunkJson(records[j])];
      fed := fed + Serialize(ChunkJson(records[j]));
    }
    assert records[..|records|] == records;
  }

  /** The digest of everything the hasher has been fed. */
  method Compute(sha: Hash, scope: Scope, bundles: seq<Bundle>) returns (digest: string)
    ensures digest == sha(Stream(Objects(sha, scope, bundles)))
  {
    var text := Serialize(Header(scope));
    var totalChunks, totalBytes := 0, 0;
    StreamOne(Header(scope));
    assert Body(Summaries(sha, [])) == [];
    assert [Header(scope)] + [] == [Header(scope)];
    hide *;
    for i := 0 to |bundles|
      invariant text == Stream([Header(scope)] + Body(Summaries(sha, bundles[..i])))
      invariant totalChunks == ChunkTotal(bundles[..i]) && totalBytes == ByteTotal(bundles[..i])
    {
      text := Feed(sha, Summarize(sha, bundles[i]), text);
      totalChunks, totalBytes := totalChunks + |bundles[i].chunks|, totalBytes + bundles[i].totalBytes;
      NextBundle(sha, bundles, i);
      StreamNext([Header(scope)], Summaries(sha, bundles[..i]), Summarize(sha, bundles[i]));
    }
    assert bundles[..|bundles|] == bundles;
    StreamSnoc([Header(scope)] + Body(Summaries(sha, bundles)), Footer(|bundles|, totalChunks, totalBytes));
    ObjectsParts(sha, scope, bundles);
    text := text + Serialize(Footer(|bundles|, totalChunks, totalBytes));
    digest := sha(text);
  }

  lemma StreamNext(header: seq<Json>, summaries: seq<Summary>, last: Summary)
    ensures Stream(header + Body(summaries + [last]))
         == Stream(header + Body(summaries)) + Stream([DocumentJson(last.document)] + ChunkObjects(last.chunks))
  {
    BodySnoc(summaries, last);
    var d, c := [DocumentJson(last.document)], ChunkObjects(last.chunks);
    StreamConcat(header + Body(summaries), d + c);
    hide Body, ChunkObjects, DocumentJson;
    assert header + (Body(summaries) + d + c) == header + Body(summaries) + (d + c);
  }

  lemma ObjectsParts(sha: Hash, scope: Scope, bundles: seq<Bundle>)
    ensures Objects(sha, scope, bundles) == [Header(scope)] + Body(Summaries(sha, bundles))
                                            + [Footer(|bundles|, ChunkTotal(bundles), ByteTotal(bundles))]
  {
  }

  lemma NoChunkObjects(records: seq<ChunkRecord>)
    ensures ChunkObjects(records[..0]) == []
  {
  }

  lemma StreamOne(j: Json)
    ensures Stream([j]) == Serialize(j)
  {
    assert [j][1..] == [];
  }

  lemma StreamSnoc(objects: seq<Json>, last: Json)
    ensures Stream(objects + [last]) == Stream(objects) + Serialize(last)
  {
    StreamOne(last);
    StreamConcat(objects, [last]);
  }

  lemma {:induction false} ChunkObjectsSnoc(records: seq<ChunkRecord>, j: nat)
    requires j < |records|
    ensures ChunkObjects(records[..j + 1]) == ChunkObjects(records[..j]) + [ChunkJson(records[j])]
  {
    if j == 0 {
      assert records[..1][1..] == [];
    } else {
      assert records[..j + 1][1..] == records[1..][..j] && records[..j][1..] == records[1..][..j - 1];
      ChunkObjectsSnoc(records[1..], j - 1);
    }
  }

  lemma SummaryAt(sha: Hash, bundles: seq<Bundle>, i: nat)
    requires i < |bundles|
    ensures Summaries(sha, bundles)[i] == Summarize(sha, bundles[i])
  {
  }

  lemma NextBundle(sha: Hash, bundles: seq<Bundle>, i: nat)
    requires i < |bundles|
    ensures Summaries(sha, bundles[..i + 1]) == Summaries(sha, bundles[..i]) + [Summarize(sha, bundles[i])]
    ensures ChunkTotal(bundles[..i + 1]) == ChunkTotal(bundles[..i]) + |bundles[i].chunks|
    ensures ByteTotal(bundles[..i + 1]) == ByteTotal(bundles[..i]) + bundles[i].totalBytes
  {
    assert bundles[..i + 1][..i] == bundles[..i];
  }

  lemma {:induction false} BodySnoc(summaries: seq<Summary>, last: Summary)
    ensures Body(summaries + [last]) == Body(summaries) + [DocumentJson(last.document)] + ChunkObjects(last.chunks)
  {
    var all := summaries + [last];
    if summaries == [] {
      assert all[1..] == [];
    } else {
      assert all[1..] == summaries[1..] + [last];
      BodySnoc(summaries[1..], last);
    }
  }

  // --- reading the objects back --------------------------------------------------------------

  function FirstKey(j: Json): string {
    if j.Object? && j.fields.Field? then j.fields.key else ""
  }

  lemma Kinds(d: DocumentRecord, c: ChunkRecord, n: nat, m: nat, b: nat)
    ensures FirstKey(DocumentJson(d)) == "document_fingerprint"
    ensures FirstKey(ChunkJson(c)) == "chunk_id"
    ensures FirstKey(Footer(n, m, b)) == "chunk_count"
    ensures "document_fingerprint" != "chunk_id" && "chunk_id" != "chunk_count"
    ensures "document_fingerprint" != "chunk_count"
  {
    assert "document_fingerprint"[0] != "chunk_id"[0];
    assert |"chunk_id"| != |"chunk_count"|;
    assert |"document_fingerprint"| != |"chunk_count"|;
  }

  lemma ChunkRunHead(c: seq<ChunkRecord>, x: seq<Json>)
    requires x != []
    ensures ChunkObjects(c) + x != []
    ensures FirstKey((ChunkObjects(c) + x)[0]) == if c == [] then FirstKey(x[0]) else "chunk_id"
    ensures c != [] ==> (ChunkObjects(c) + x)[0] == ChunkJson(c[0])
    ensures c != [] ==> (ChunkObjects(c) + x)[1..] == ChunkObjects(c[1..]) + x
    ensures c == [] ==> ChunkObjects(c) + x == x
  {
    if c != [] {
      Kinds(DocumentRecord("", "", "", "", ""), c[0], 0, 0, 0);
      assert ChunkObjects(c) == [ChunkJson(c[0])] + ChunkObjects(c[1..]);
      hide *;
      HeadAndTail(ChunkJson(c[0]), ChunkObjects(c[1..]), x);
    } else {
      assert ChunkObjects(c) == [];
      hide *;
    }
  }

  /** Chunk objects end where an object of another kind begins. */
  lemma {:induction false} ChunksReadBack(a: seq<ChunkRecord>, b: seq<ChunkRecord>, x: seq<Json>, y: seq<Json>)
    requires x != [] && y != [] && FirstKey(x[0]) != "chunk_id" && FirstKey(y[0]) != "chunk_id"
    requires ChunkObjects(a) + x == ChunkObjects(b) + y
    ensures a == b && x == y
  {
    ChunkRunHead(a, x);
    ChunkRunHead(b, y);
    hide ChunkObjects, FirstKey;
    if a != [] {
      ChunksReadBack(a[1..], b[1..], x, y);
      assert a == [a[0]] + a[1..] && b == [b[0]] + b[1..];
    }
  }

  lemma BodyFirst(summaries: seq<Summary>, footer: Json)
    requires FirstKey(footer) == "chunk_count"
    ensures FirstKey((Body(summaries) + [footer])[0])
         == if summaries == [] then "chunk_count" else "document_fingerprint"
  {
    if summaries != [] {
      Kinds(summaries[0].document, ChunkRecord("", ""), 0, 0, 0);
    }
  }

  lemma BodyParts(summaries: seq<Summary>, footer: Json)
    requires summaries != []
    ensures var s := Body(summaries) + [footer];
      && s[0] == DocumentJson(summaries[0].document)
      && s[1..] == ChunkObjects(summaries[0].chunks) + (Body(summaries[1..]) + [footer])
  {
    var d, c, r := DocumentJson(summaries[0].document), ChunkObjects(summaries[0].chunks), Body(summaries[1..]);
    assert Body(summaries) == [d] + c + r;
    hide *;
    HeadAndRest(d, c, r, [footer]);
  }

  lemma HeadAndTail<T>(d: T, c: seq<T>, x: seq<T>)
    ensures ([d] + c + x)[0] == d && ([d] + c + x)[1..] == c + x
  {
  }

  lemma HeadAndRest<T>(d: T, c: seq<T>, r: seq<T>, x: seq<T>)
    ensures ([d] + c + r + x)[0] == d && ([d] + c + r + x)[1..] == c + (r + x)
  {
  }

  lemma DocumentJsonInjective(a: DocumentRecord, b: DocumentRecord)
    requires DocumentJson(a) == DocumentJson(b)
    ensures a == b
  {
  }

  /** A run of documents and chunks that ends in a total is read back in one way. */
  lemma {:induction false} BodyReadBack(a: seq<Summary>, b: seq<Summary>, x: Json, y: Json)
    requires FirstKey(x) == "chunk_count" && FirstKey(y) == "chunk_count"
    requires Body(a) + [x] == Body(b) + [y]
    ensures a == b && x == y
  {
    BodyFirst(a, x);
    BodyFirst(b, y);
    Kinds(DocumentRecord("", "", "", "", ""), ChunkRecord("", ""), 0, 0, 0);
    if a == [] && b == [] {
      assert Body(a) + [x] == [x] && Body(b) + [y] == [y];
    } else if a != [] && b != [] {
      BodyParts(a, x);
      BodyParts(b, y);
      BodyFirst(a[1..], x);
      BodyFirst(b[1..], y);
      hide Body, ChunkObjects, FirstKey;
      DocumentJsonInjective(a[0].document, b[0].document);
      hide DocumentJson;
      ChunksReadBack(a[0].chunks, b[0].chunks, Body(a[1..]) + [x], Body(b[1..]) + [y]);
      BodyReadBack(a[1..], b[1..], x, y);
      assert a == [a[0]] + a[1..] && b == [b[0]] + b[1..];
    }
  }

  lemma ObjectsAreObjects(sha: Hash, scope: Scope, bundles: seq<Bundle>)
    ensures AllObjects(Objects(sha, scope, bundles))
  {
    BodyIsObjects(Summaries(sha, bundles));
  }

  lemma {:induction false} ChunksAreObjects(chunks: seq<ChunkRecord>)
    ensures AllObjects(ChunkObjects(chunks))
  {
    if chunks != [] {
      ChunksAreObjects(chunks[1..]);
    }
  }

  lemma {:induction false} BodyIsObjects(summaries: seq<Summary>)
    ensures AllObjects(Body(summaries))
  {
    if summaries != [] {
      ChunksAreObjects(summaries[0].chunks);
      BodyIsObjects(summaries[1..]);
    }
  }

  /** Document by document: the same id, version and digests, and chunk by chunk the same id and
      content digest. */
  ghost predicate SameRecords(sha: Hash, a: seq<Bundle>, b: seq<Bundle>) {
    && |a| == |b|
    && (forall i | 0 <= i < |a| :: SameDocument(sha, a[i].manifest, b[i].manifest))
    && (forall i | 0 <= i < |a| :: SameChunks(sha, a[i].chunks, b[i].chunks))
  }

  ghost predicate SameDocument(sha: Hash, m: Manifest, n: Manifest) {
    && m.documentId == n.documentId && m.version == n.version && m.fingerprint == n.fingerprint
    && m.governanceSha == n.governanceSha
    && ProvenanceDigest(sha, m.provenance) == ProvenanceDigest(sha, n.provenance)
  }

  ghost predicate SameChunks(sha: Hash, a: seq<Chunk>, b: seq<Chunk>) {
    && |a| == |b|
    && forall j | 0 <= j < |a| :: a[j].chunkId == b[j].chunkId && sha(a[j].content) == sha(b[j].content)
  }

  lemma SummaryIff(sha: Hash, a: Bundle, b: Bundle)
    ensures Summarize(sha, a) == Summarize(sha, b) <==>
      SameDocument(sha, a.manifest, b.manifest) && SameChunks(sha, a.chunks, b.chunks)
  {
    hide ProvenanceDigest;
    var x, y := ChunkRecords(sha, a.chunks), ChunkRecords(sha, b.chunks);
    assert forall j | 0 <= j < |x| :: x[j] == ChunkRecord(a.chunks[j].chunkId, sha(a.chunks[j].content));
    assert forall j | 0 <= j < |y| :: y[j] == ChunkRecord(b.chunks[j].chunkId, sha(b.chunks[j].content));
  }

  lemma SummariesIff(sha: Hash, a: seq<Bundle>, b: seq<Bundle>)
    ensures Summaries(sha, a) == Summaries(sha, b) <==> SameRecords(sha, a, b)
  {
    var x, y := Summaries(sha, a), Summaries(sha, b);
    assert forall i | 0 <= i < |a| :: x[i] == Summarize(sha, a[i]);
    assert forall i | 0 <= i < |b| :: y[i] == Summarize(sha, b[i]);
    hide SameDocument, SameChunks, Summarize, Summaries;
    forall i | 0 <= i < |a| && i < |b|
      ensures Summarize(sha, a[i]) == Summarize(sha, b[i]) <==>
        SameDocument(sha, a[i].manifest, b[i].manifest) && SameChunks(sha, a[i].chunks, b[i].chunks)
    {
      SummaryIff(sha, a[i], b[i]);
    }
    if x == y {
      forall i | 0 <= i < |a|
        ensures SameDocument(sha, a[i].manifest, b[i].manifest) && SameChunks(sha, a[i].chunks, b[i].chunks)
      {
        assert x[i] == y[i];
      }
    }
  }

  /** Two generations feed the hash the same text exactly when they agree on the scope, on every
      document record, on every chunk id and content digest, and on the byte total. */
  lemma StreamsEqualIff(sha: Hash, s: Scope, a: seq<Bundle>, t: Scope, b: seq<Bundle>)
    ensures Stream(Objects(sha, s, a)) == Stream(Objects(sha, t, b)) <==>
      s == t && SameRecords(sha, a, b) && ByteTotal(a) == ByteTotal(b)
  {
    SummariesIff(sha, a, b);
    hide SameRecords;
    if Stream(Objects(sha, s, a)) == Stream(Objects(sha, t, b)) {
      ObjectsAreObjects(sha, s, a);
      ObjectsAreObjects(sha, t, b);
      StreamUniquelyDecodable(Objects(sha, s, a), Objects(sha, t, b));
      ObjectsReadBack(sha, s, a, t, b);
    }
    if s == t && Summaries(sha, a) == Summaries(sha, b) && ByteTotal(a) == ByteTotal(b) {
      SameChunkTotal(sha, a, b);
    }
  }

  lemma HeaderAndRest(sha: Hash, s: Scope, a: seq<Bundle>)
    ensures var o := Objects(sha, s, a);
      && o[0] == Header(s)
      && o[1..] == Body(Summaries(sha, a)) + [Footer(|a|, ChunkTotal(a), ByteTotal(a))]
  {
    ObjectsParts(sha, s, a);
    hide *;
    HeadAndTail(Header(s), Body(Summaries(sha, a)), [Footer(|a|, ChunkTotal(a), ByteTotal(a))]);
  }

  lemma ObjectsReadBack(sha: Hash, s: Scope, a: seq<Bundle>, t: Scope, b: seq<Bundle>)
    requires Objects(sha, s, a) == Objects(sha, t, b)
    ensures s == t && Summaries(sha, a) == Summaries(sha, b) && ByteTotal(a) == ByteTotal(b)
  {
    var x := Footer(|a|, ChunkTotal(a), ByteTotal(a));
    var y := Footer(|b|, ChunkTotal(b), ByteTotal(b));
    Kinds(DocumentRecord("", "", "", "", ""), ChunkRecord("", ""), |a|, ChunkTotal(a), ByteTotal(a));
    Kinds(DocumentRecord("", "", "", "", ""), ChunkRecord("", ""), |b|, ChunkTotal(b), ByteTotal(b));
    HeaderAndRest(sha, s, a);
    HeaderAndRest(sha, t, b);
    hide Objects, Body, Summaries, FirstKey;
    BodyReadBack(Summaries(sha, a), Summaries(sha, b), x, y);
  }

  lemma {:induction false} SameChunkTotal(sha: Hash, a: seq<Bundle>, b: seq<Bundle>)
    requires Summaries(sha, a) == Summaries(sha, b)
    ensures |a| == |b| && ChunkTotal(a) == ChunkTotal(b)
  {
    assert |Summaries(sha, a)| == |a|;
    if a != [] {
      var n := |a| - 1;
      forall i | 0 <= i < |a|
        ensures Summarize(sha, a[i]) == Summarize(sha, b[i])
      {
        SummaryAt(sha, a, i);
        SummaryAt(sha, b, i);
      }
      assert |ChunkRecords(sha, a[n].chunks)| == |ChunkRecords(sha, b[n].chunks)|;
      hide Summarize;
      assert Summaries(sha, a[..n]) == Summaries(sha, b[..n]);
      SameChunkTotal(sha, a[..n], b[..n]);
    }
  }

  ghost predicate Injective(sha: Hash) {
    forall x, y :: sha(x) == sha(y) ==> x == y
  }

  /** With a collision-free hash the digest itself tells generations apart, down to the content
      of every chunk and the provenance of every document. */
  lemma DigestsDiffer(sha: Hash, s: Scope, a: seq<Bundle>, t: Scope, b: seq<Bundle>, i: nat)
    requires Injective(sha) && sha(Stream(Objects(sha, s, a))) == sha(Stream(Objects(sha, t, b))) && i < |a|
    ensures s == t && |a| == |b|
    ensures a[i].manifest.documentId == b[i].manifest.documentId && a[i].manifest.version == b[i].manifest.version
    ensures a[i].manifest.fingerprint == b[i].manifest.fingerprint
    ensures a[i].manifest.governanceSha == b[i].manifest.governanceSha
    ensures a[i].manifest.provenance == b[i].manifest.provenance
    ensures |a[i].chunks| == |b[i].chunks|
    ensures forall j | 0 <= j < |a[i].chunks| ::
      a[i].chunks[j].chunkId == b[i].chunks[j].chunkId && a[i].chunks[j].content == b[i].chunks[j].content
  {
    StreamsEqualIff(sha, s, a, t, b);
    hide Objects, Stream, ProvenanceDigest;
    assert SameDocument(sha, a[i].manifest, b[i].manifest) && SameChunks(sha, a[i].chunks, b[i].chunks);
    ProvenanceInjective(sha, a[i].manifest.provenance, b[i].manifest.provenance);
    forall j | 0 <= j < |a[i].chunks|
      ensures a[i].chunks[j].chunkId == b[i].chunks[j].chunkId && a[i].chunks[j].content == b[i].chunks[j].content
    {
      assert sha(a[i].chunks[j].content) == sha(b[i].chunks[j].content);
    }
  }

  lemma ProvenanceInjective(sha: Hash, p: Option<Provenance>, q: Option<Provenance>)
    requires Injective(sha) && ProvenanceDigest(sha, p) == ProvenanceDigest(sha, q)
    ensures p == q
  {
    SerializeInjective(ProvenanceJson(p), ProvenanceJson(q));
  }
}
