/** Preparing one governed document: its fingerprint, its place among earlier versions and the
    chunks that carry its metadata. */
module Ingestion {
  import opened Wrappers
  import opened CanonicalJson
  import opened KnowledgeModels
  import opened GenerationDigest
  import opened PublicationPlan
  import T = Text
  import P = Packing
  import C = Chunking

  /** A canonical semantic version, parsed. */
  datatype Version = Version(major: nat, minor: nat, patch: nat)

  function VersionText(v: Version): string {
    Digits(v.major) + "." + Digits(v.minor) + "." + Digits(v.patch)
  }

  predicate Older(a: Version, b: Version) {
    || a.major < b.major
    || (a.major == b.major && (a.minor < b.minor || (a.minor == b.minor && a.patch < b.patch)))
  }

  datatype Draft = Draft(documentId: string, version: Version, namespace: string, sourceType: SourceType,
                         customer: Option<string>, governance: Governance, provenance: Option<Provenance>,
                         sections: seq<C.Section>)
  datatype Existing = Existing(documentId: string, version: Version, fingerprint: string)

  datatype Policy = Policy(maximumDocumentBytes: nat, maximumSections: nat, maximumBlocks: nat,
                           maximumChunks: nat, maximumBlockBytes: nat, chunking: P.Limits)

  /** The digests of a draft's content and of its governance. */
  datatype Digests = Digests(content: Draft -> string, governance: Draft -> string)

  datatype PrepareError = Ungoverned | TooManySections | TooManyBlocks | BlockTooLarge | DocumentTooLarge
                        | OtherDocument | ChangedVersion | OlderVersion | Unchunkable | TooManyChunks

  /** What the draft's own validation guarantees. */
  ghost predicate Validated(draft: Draft) {
    && draft.sections != [] && draft.governance.purposes != [] && T.Trimmed(draft.governance.title)
    && (forall s | s in draft.sections :: C.Normalized(s))
    && (draft.governance.effectiveTo.Some? ==> draft.governance.effectiveTo.value > draft.governance.effectiveFrom)
  }

  predicate Governed(draft: Draft) {
    && draft.namespace == "hr"
    && (draft.sourceType.ProductDocumentation? <==> draft.customer == None)
    && draft.governance.classification != HighlyRestricted
    && ("leave" in draft.governance.modules ==> "hr_core" in draft.governance.modules)
  }

  function BlockCount(sections: seq<C.Section>): nat {
    if sections == [] then 0 else |sections[0].blocks| + BlockCount(sections[1..])
  }

  function BlockBytes(blocks: seq<string>): nat {
    if blocks == [] then 0 else T.Utf8Size(blocks[0]) + BlockBytes(blocks[1..])
  }

  function SectionBytes(sections: seq<C.Section>): nat {
    if sections == [] then 0
    else T.Utf8Size(sections[0].heading) + BlockBytes(sections[0].blocks) + SectionBytes(sections[1..])
  }

  function TotalBytes(draft: Draft): nat {
    T.Utf8Size(draft.governance.title) + SectionBytes(draft.sections)
  }

  predicate HasLargeBlock(sections: seq<C.Section>, maximum: nat) {
    exists i, j | 0 <= i < |sections| && 0 <= j < |sections[i].blocks| :: T.Utf8Size(sections[i].blocks[j]) > maximum
  }

  function FingerprintOf(sha: Hash, d: Digests, draft: Draft): string {
    Fingerprint(sha, d.content(draft), d.governance(draft))
  }

  function DispositionOf(draft: Draft, fingerprint: string, existing: Option<Existing>):
    Result<(Disposition, Option<Version>), PrepareError>
  {
    match existing
    case None => Ok((NewDocument, None))
    case Some(e) =>
      if e.documentId != draft.documentId then Err(OtherDocument)
      else if draft.version == e.version then
        if e.fingerprint != fingerprint then Err(ChangedVersion) else Ok((Idempotent, None))
      else if Older(draft.version, e.version) then Err(OlderVersion)
      else Ok((SupersedingVersion, Some(e.version)))
  }

  function ChunkAt(sha: Hash, draft: Draft, fingerprint: string, raw: C.SectionChunk, ordinal: nat): Chunk {
    Chunk(OpaqueId(sha, "chk", fingerprint, ordinal), OpaqueId(sha, "cite", fingerprint, ordinal),
          draft.documentId, VersionText(draft.version), ordinal, draft.namespace, raw.sectionKey, raw.heading,
          draft.sourceType, draft.customer, draft.governance, raw.content)
  }

  function Prepare(sha: Hash, d: Digests, draft: Draft, existing: Option<Existing>, policy: Policy):
    Result<Bundle, PrepareError>
  {
    if !Governed(draft) then Err(Ungoverned)
    else if |draft.sections| > policy.maximumSections then Err(TooManySections)
    else if BlockCount(draft.sections) > policy.maximumBlocks then Err(TooManyBlocks)
    else if HasLargeBlock(draft.sections, policy.maximumBlockBytes) then Err(BlockTooLarge)
    else if TotalBytes(draft) > policy.maximumDocumentBytes then Err(DocumentTooLarge)
    else
      var fingerprint := FingerprintOf(sha, d, draft);
      var disposition := DispositionOf(draft, fingerprint, existing);
      if disposition.Err? then Err(disposition.error)
      else
        var raw := C.Chunks(draft.sections, policy.chunking);
        if raw.Err? then Err(Unchunkable)
        else if |raw.value| > policy.maximumChunks then Err(TooManyChunks)
        else
          var (kind, supersedes) := disposition.value;
          var chunks := seq(|raw.value|, i requires 0 <= i < |raw.value| =>
                              ChunkAt(sha, draft, fingerprint, raw.value[i], i));
          Ok(Bundle(Manifest(draft.documentId, VersionText(draft.version), draft.namespace, draft.sourceType,
                             draft.customer, draft.provenance, d.content(draft), d.governance(draft), fingerprint,
                             if supersedes.Some? then Some(VersionText(supersedes.value)) else None),
                    chunks, kind, TotalBytes(draft), |chunks|))
  }

  // --- versions ------------------------------------------------------------------------------

  lemma DotIsNoDigit(x: string)
    ensures NoDigitFirst("." + x)
  {
  }

  lemma VersionParts(v: Version)
    ensures VersionText(v) == Digits(v.major) + ("." + (Digits(v.minor) + ("." + (Digits(v.patch) + ""))))
  {
  }

  /** Comparing parsed versions and comparing their texts for equality is the same. */
  lemma VersionTextInjective(a: Version, b: Version)
    requires VersionText(a) == VersionText(b)
    ensures a == b
  {
    VersionParts(a);
    VersionParts(b);
    hide VersionText, Digits;
    var x, y := Digits(a.patch) + "", Digits(b.patch) + "";
    var p, q := "." + (Digits(a.minor) + ("." + x)), "." + (Digits(b.minor) + ("." + y));
    DotIsNoDigit(Digits(a.minor) + ("." + x));
    DotIsNoDigit(Digits(b.minor) + ("." + y));
    DigitsPrefixFree(a.major, b.major, p, q);
    assert p[1..] == Digits(a.minor) + ("." + x) && q[1..] == Digits(b.minor) + ("." + y);
    DotIsNoDigit(x);
    DotIsNoDigit(y);
    DigitsPrefixFree(a.minor, b.minor, "." + x, "." + y);
    assert ("." + x)[1..] == x && ("." + y)[1..] == y;
    DigitsPrefixFree(a.patch, b.patch, "", "");
  }

  lemma OlderOrders(a: Version, b: Version, c: Version)
    ensures a == b || Older(a, b) || Older(b, a)
    ensures !(Older(a, b) && Older(b, a)) && !Older(a, a)
    ensures Older(a, b) && Older(b, c) ==> Older(a, c)
  {
  }

  function Numbers(v: Version): seq<nat> {
    [v.major, v.minor, v.patch]
  }

  /** The first of the three numbers that differs is smaller. */
  ghost predicate Earlier(a: Version, b: Version) {
    exists i :: 0 <= i < 3 && Numbers(a)[i] < Numbers(b)[i] && Numbers(a)[..i] == Numbers(b)[..i]
  }

  lemma OlderIff(a: Version, b: Version)
    ensures Older(a, b) <==> Earlier(a, b)
  {
    var x, y := Numbers(a), Numbers(b);
    if Older(a, b) {
      var i := if a.major < b.major then 0 else if a.minor < b.minor then 1 else 2;
      assert x[i] < y[i] && x[..i] == y[..i];
    }
    if i :| 0 <= i < 3 && x[i] < y[i] && x[..i] == y[..i] {
      assert i > 0 ==> x[..i][0] == y[..i][0];
      assert i > 1 ==> x[..i][1] == y[..i][1];
    }
  }

  // --- what is counted -----------------------------------------------------------------------

  function AllBlocks(sections: seq<C.Section>): seq<string> {
    if sections == [] then [] else sections[0].blocks + AllBlocks(sections[1..])
  }

  /** All texts of a draft: its title, then heading and blocks of each section. */
  function AllTexts(sections: seq<C.Section>): seq<string> {
    if sections == [] then [] else [sections[0].heading] + sections[0].blocks + AllTexts(sections[1..])
  }

  lemma {:induction false} BlocksCounted(sections: seq<C.Section>)
    ensures BlockCount(sections) == |AllBlocks(sections)|
  {
    if sections != [] {
      BlocksCounted(sections[1..]);
    }
  }

  lemma {:induction false} BytesConcat(a: seq<string>, b: seq<string>)
    ensures BlockBytes(a + b) == BlockBytes(a) + BlockBytes(b)
  {
    if a == [] {
      assert a + b == b;
    } else {
      assert (a + b)[1..] == a[1..] + b;
      BytesConcat(a[1..], b);
    }
  }

  lemma {:induction false} JoinedBytes(texts: seq<string>)
    ensures BlockBytes(texts) == T.Utf8Size(T.Join(texts, ""))
  {
    hide T.Utf8Size;
    if texts == [] {
      NoBytes();
    } else {
      JoinedBytes(texts[1..]);
      if |texts| == 1 {
        NoBytes();
      } else {
        assert T.Join(texts, "") == texts[0] + T.Join(texts[1..], "");
        T.Utf8SizeAdds(texts[0], T.Join(texts[1..], ""));
      }
    }
  }

  lemma NoBytes()
    ensures T.Utf8Size("") == 0 && T.Join([], "") == "" && BlockBytes([]) == 0
  {
  }

  lemma {:induction false} SectionsBytes(sections: seq<C.Section>)
    ensures SectionBytes(sections) == BlockBytes(AllTexts(sections))
  {
    hide T.Utf8Size;
    if sections == [] {
      NoBytes();
    } else {
      SectionsBytes(sections[1..]);
      BytesConcat([sections[0].heading] + sections[0].blocks, AllTexts(sections[1..]));
      BytesConcat([sections[0].heading], sections[0].blocks);
      NoBytes();
    }
  }

  /** The size of a draft is that of all its texts written one after another. */
  lemma TotalBytesIs(draft: Draft)
    ensures TotalBytes(draft) == T.Utf8Size(T.Join([draft.governance.title] + AllTexts(draft.sections), ""))
  {
    var texts := [draft.governance.title] + AllTexts(draft.sections);
    assert texts[1..] == AllTexts(draft.sections);
    SectionsBytes(draft.sections);
    JoinedBytes(texts);
    hide T.Utf8Size, T.Join, SectionBytes;
  }

  // --- what preparation promises the publisher -----------------------------------------------

  /** Sections with blocks give chunks. */
  lemma ChunksExist(sections: seq<C.Section>, limits: P.Limits)
    requires sections != [] && (forall s | s in sections :: C.Normalized(s)) && C.Chunks(sections, limits).Ok?
    ensures C.Chunks(sections, limits).value != []
  {
    assert sections[0] in sections;
    C.SectionPartition(sections[0], limits);
    hide P.Pack, C.SectionUnits, C.SectionPieces;
  }

  lemma TitleHasBytes(s: string)
    requires T.Trimmed(s)
    ensures T.Utf8Size(s) >= 1
  {
  }

  /** Every prepared bundle passes the publisher's own checks of totals and metadata. */
  lemma PreparedIsPublishable(sha: Hash, d: Digests, draft: Draft, existing: Option<Existing>, policy: Policy)
    requires Validated(draft) && Prepare(sha, d, draft, existing, policy).Ok?
    ensures var b := Prepare(sha, d, draft, existing, policy).value;
      b.totalBytes >= 1 && b.totalChunks >= 1 && MetadataValid(sha, b)
  {
    ChunksExist(draft.sections, policy.chunking);
    TitleHasBytes(draft.governance.title);
    hide C.Chunks, T.Utf8Size, OpaqueId, Fingerprint, VersionText, TotalBytes, BlockCount, HasLargeBlock,
      DispositionOf, Governed;
    assert TotalBytes(draft) >= 1 by { TotalIncludesTitle(draft); }
  }

  lemma TotalIncludesTitle(draft: Draft)
    ensures TotalBytes(draft) >= T.Utf8Size(draft.governance.title)
  {
  }

  /** A prepared bundle is acceptable to a publication exactly when it targets the document's
      namespace and customer, has its modules installed and has not expired. */
  lemma PreparedBundleOk(sha: Hash, d: Digests, draft: Draft, existing: Option<Existing>, policy: Policy,
                         context: Context, now: Time)
    requires Validated(draft) && Prepare(sha, d, draft, existing, policy).Ok?
    ensures BundleOk(sha, context, now, Prepare(sha, d, draft, existing, policy).value) <==>
      && context.namespace == "hr"
      && (draft.customer == None || draft.customer == Some(context.customer))
      && (forall m | m in draft.governance.modules :: m in context.installedModules)
      && (draft.governance.effectiveTo == None || draft.governance.effectiveTo.value > now)
  {
    PreparedIsPublishable(sha, d, draft, existing, policy);
    PreparedFields(sha, d, draft, existing, policy);
    hide Prepare, MetadataValid;
    assert BundleOk(sha, context, now, Prepare(sha, d, draft, existing, policy).value) <==>
      && draft.namespace == context.namespace
      && (if draft.sourceType.ProductDocumentation? then draft.customer == None
          else draft.customer == Some(context.customer))
      && GovernanceOk(context, now, draft.governance);
  }

  lemma PreparedFields(sha: Hash, d: Digests, draft: Draft, existing: Option<Existing>, policy: Policy)
    requires Validated(draft) && Prepare(sha, d, draft, existing, policy).Ok?
    ensures var b := Prepare(sha, d, draft, existing, policy).value;
      && Governed(draft) && b.chunks != [] && b.chunks[0].governance == draft.governance
      && b.manifest.namespace == draft.namespace && b.manifest.sourceType == draft.sourceType
      && b.manifest.customer == draft.customer && b.manifest.documentId == draft.documentId
      && b.manifest.version == VersionText(draft.version) && b.manifest.fingerprint == FingerprintOf(sha, d, draft)
  {
    ChunksExist(draft.sections, policy.chunking);
    hide C.Chunks, T.Utf8Size, OpaqueId, Fingerprint, TotalBytes, BlockCount, HasLargeBlock, DispositionOf;
  }

  /** How a draft stands to what was prepared before. */
  ghost predicate Stands(draft: Draft, existing: Option<Existing>, disposition: Disposition, supersedes: Option<string>) {
    match existing
    case None => disposition == NewDocument && supersedes == None
    case Some(e) =>
      if e.version == draft.version then disposition == Idempotent && supersedes == None
      else
        && Earlier(e.version, draft.version)
        && disposition == SupersedingVersion && supersedes == Some(VersionText(e.version))
  }

  /** Everything a prepared bundle says: its manifest, its standing among earlier versions, its
      totals, and each chunk with its place, its heading and its text. */
  lemma PreparedIs(sha: Hash, d: Digests, draft: Draft, existing: Option<Existing>, policy: Policy)
    requires Prepare(sha, d, draft, existing, policy).Ok?
    ensures var b := Prepare(sha, d, draft, existing, policy).value;
      && Stands(draft, existing, b.disposition, b.manifest.supersedes)
      && b.manifest.documentId == draft.documentId && b.manifest.version == VersionText(draft.version)
      && b.manifest.namespace == draft.namespace && b.manifest.sourceType == draft.sourceType
      && b.manifest.customer == draft.customer && b.manifest.provenance == draft.provenance
      && b.manifest.contentSha == d.content(draft) && b.manifest.governanceSha == d.governance(draft)
      && b.manifest.fingerprint == Fingerprint(sha, d.content(draft), d.governance(draft))
      && b.totalBytes == T.Utf8Size(T.Join([draft.governance.title] + AllTexts(draft.sections), ""))
      && b.totalChunks == |b.chunks|
    ensures C.Chunks(draft.sections, policy.chunking).Ok?
    ensures var b := Prepare(sha, d, draft, existing, policy).value;
      var raw := C.Chunks(draft.sections, policy.chunking).value;
      && |b.chunks| == |raw|
      && forall i | 0 <= i < |raw| ::
           var c := b.chunks[i];
           && c.ordinal == i && c.sectionKey == raw[i].sectionKey && c.heading == raw[i].heading
           && c.content == raw[i].content && c.documentId == draft.documentId
           && c.version == VersionText(draft.version) && c.namespace == draft.namespace
           && c.sourceType == draft.sourceType && c.customer == draft.customer && c.governance == draft.governance
           && c.chunkId == OpaqueId(sha, "chk", b.manifest.fingerprint, i)
           && c.citationId == OpaqueId(sha, "cite", b.manifest.fingerprint, i)
  {
    TotalBytesIs(draft);
    if existing.Some? {
      OlderIff(existing.value.version, draft.version);
      OlderOrders(draft.version, existing.value.version, draft.version);
    }
    hide C.Chunks, T.Utf8Size, T.Join, OpaqueId, Fingerprint, TotalBytes, BlockCount, HasLargeBlock, Governed, VersionText,
      Older, Earlier, AllTexts;
  }

  lemma PrepareOkIff(sha: Hash, d: Digests, draft: Draft, existing: Option<Existing>, policy: Policy)
    ensures var raw := C.Chunks(draft.sections, policy.chunking);
      Prepare(sha, d, draft, existing, policy).Ok? <==>
        && Governed(draft) && |draft.sections| <= policy.maximumSections
        && BlockCount(draft.sections) <= policy.maximumBlocks
        && !HasLargeBlock(draft.sections, policy.maximumBlockBytes)
        && TotalBytes(draft) <= policy.maximumDocumentBytes
        && DispositionOf(draft, FingerprintOf(sha, d, draft), existing).Ok?
        && raw.Ok? && |raw.value| <= policy.maximumChunks
  {
    hide C.Chunks, TotalBytes, BlockCount, HasLargeBlock, Governed, DispositionOf, FingerprintOf, ChunkAt;
  }

  lemma DispositionIff(draft: Draft, fingerprint: string, existing: Option<Existing>)
    ensures DispositionOf(draft, fingerprint, existing).Ok? <==>
      (existing.Some? ==>
         && existing.value.documentId == draft.documentId
         && (Earlier(existing.value.version, draft.version)
             || (existing.value.version == draft.version && existing.value.fingerprint == fingerprint)))
  {
    if existing.Some? {
      OlderOrders(draft.version, existing.value.version, draft.version);
      OlderIff(existing.value.version, draft.version);
    }
    hide Older, Earlier;
  }

  lemma GovernedIff(draft: Draft)
    ensures Governed(draft) <==>
      && draft.namespace == "hr"
      && (draft.sourceType.ProductDocumentation? ==> draft.customer.None?)
      && (draft.sourceType.CustomerPolicy? ==> draft.customer.Some?)
      && !draft.governance.classification.HighlyRestricted?
      && ("leave" in draft.governance.modules ==> "hr_core" in draft.governance.modules)
  {
  }

  lemma {:induction false} LargeBlockIff(sections: seq<C.Section>, maximum: nat)
    ensures HasLargeBlock(sections, maximum) <==> exists block | block in AllBlocks(sections) :: T.Utf8Size(block) > maximum
  {
    hide T.Utf8Size;
    if sections != [] {
      LargeBlockIff(sections[1..], maximum);
      LargeBlockCons(sections, maximum);
      assert forall block :: block in AllBlocks(sections) <==> block in sections[0].blocks || block in AllBlocks(sections[1..]);
    }
  }

  lemma LargeBlockCons(sections: seq<C.Section>, maximum: nat)
    requires sections != []
    ensures HasLargeBlock(sections, maximum) <==>
      (exists block | block in sections[0].blocks :: T.Utf8Size(block) > maximum) || HasLargeBlock(sections[1..], maximum)
  {
    hide T.Utf8Size;
    if block :| block in sections[0].blocks && T.Utf8Size(block) > maximum {
      var j :| 0 <= j < |sections[0].blocks| && sections[0].blocks[j] == block;
    }
    if i, j :| 0 <= i < |sections| && 0 <= j < |sections[i].blocks| && T.Utf8Size(sections[i].blocks[j]) > maximum {
      assert i > 0 ==> sections[1..][i - 1] == sections[i];
      assert i == 0 ==> sections[0].blocks[j] in sections[0].blocks;
    }
    if i, j :| 0 <= i < |sections[1..]| && 0 <= j < |sections[1..][i].blocks| && T.Utf8Size(sections[1..][i].blocks[j]) > maximum {
      assert sections[i + 1] == sections[1..][i];
    }
  }

  lemma ChunksOkIff(sections: seq<C.Section>, limits: P.Limits)
    requires forall s | s in sections :: C.Normalized(s)
    ensures C.Chunks(sections, limits).Ok? <==> forall w | w in C.AllWords(sections) :: !P.TooLong(w, limits)
  {
    hide *;
    C.ChunksFailIff(sections, limits);
  }

  /** Preparation fails exactly for the documented reasons. */
  lemma PrepareFailsIff(sha: Hash, d: Digests, draft: Draft, existing: Option<Existing>, policy: Policy)
    requires Validated(draft)
    ensures Prepare(sha, d, draft, existing, policy).Ok? <==>
      && draft.namespace == "hr"
      && (draft.sourceType.ProductDocumentation? ==> draft.customer.None?)
      && (draft.sourceType.CustomerPolicy? ==> draft.customer.Some?)
      && !draft.governance.classification.HighlyRestricted?
      && ("leave" in draft.governance.modules ==> "hr_core" in draft.governance.modules)
      && |draft.sections| <= policy.maximumSections
      && |AllBlocks(draft.sections)| <= policy.maximumBlocks
      && (forall block | block in AllBlocks(draft.sections) :: T.Utf8Size(block) <= policy.maximumBlockBytes)
      && T.Utf8Size(T.Join([draft.governance.title] + AllTexts(draft.sections), "")) <= policy.maximumDocumentBytes
      && (existing.Some? ==>
            && existing.value.documentId == draft.documentId
            && (Earlier(existing.value.version, draft.version)
                || (existing.value.version == draft.version
                    && existing.value.fingerprint == Fingerprint(sha, d.content(draft), d.governance(draft)))))
      && (forall w | w in C.AllWords(draft.sections) :: !P.TooLong(w, policy.chunking))
      && (var raw := C.Chunks(draft.sections, policy.chunking);
          raw.Ok? ==> |raw.value| <= policy.maximumChunks)
  {
    assert forall s | s in draft.sections :: C.Normalized(s);
    hide *;
    PrepareOkIff(sha, d, draft, existing, policy);
    GovernedIff(draft);
    BlocksCounted(draft.sections);
    LargeBlockIff(draft.sections, policy.maximumBlockBytes);
    TotalBytesIs(draft);
    FingerprintIs(sha, d, draft);
    DispositionIff(draft, FingerprintOf(sha, d, draft), existing);
    ChunksOkIff(draft.sections, policy.chunking);
  }

  lemma FingerprintIs(sha: Hash, d: Digests, draft: Draft)
    ensures FingerprintOf(sha, d, draft) == Fingerprint(sha, d.content(draft), d.governance(draft))
  {
  }

  /** Preparing a document again over its own prepared manifest is idempotent and gives the same
      chunks; the texts of the chunks are those of the chunker. */
  lemma PrepareAgain(sha: Hash, d: Digests, draft: Draft, existing: Option<Existing>, policy: Policy)
    requires Prepare(sha, d, draft, existing, policy).Ok?
    ensures var b := Prepare(sha, d, draft, existing, policy).value;
      var again := Prepare(sha, d, draft, Some(Existing(draft.documentId, draft.version, b.manifest.fingerprint)), policy);
      && again.Ok? && again.value.disposition == Idempotent && again.value.manifest.supersedes == None
      && again.value.chunks == b.chunks && again.value.manifest.fingerprint == b.manifest.fingerprint
      && |b.chunks| == |C.Chunks(draft.sections, policy.chunking).value|
      && forall i | 0 <= i < |b.chunks| ::
           b.chunks[i].content == C.Chunks(draft.sections, policy.chunking).value[i].content
  {
    hide C.Chunks, T.Utf8Size, OpaqueId, Fingerprint, TotalBytes, BlockCount, HasLargeBlock, Governed, VersionText;
  }
}
