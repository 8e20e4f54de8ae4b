/** Turning the chunks of a generation into vectors batch by batch. The provider may answer
    anything; timings, sizes and the digests themselves are parameters. */
module Embeddings {
  import opened Wrappers
  import opened Ordering

  datatype Input = Input(id: string, contentSha: string, classification: string, text: string)
  datatype Vector = Vector(id: string, values: seq<real>, sha: string)
  datatype Reply = Embedded(profileSha: string, vectors: seq<Vector>) | ProviderFails | ProviderCancelled

  datatype Profile = Profile(sha: string, dimensions: nat, classifications: set<string>)
  datatype Source = Source(customer: string, namespace: string, generation: nat, digest: string, chunks: seq<Input>)

  datatype Prepared = Prepared(id: string, contentSha: string, values: seq<real>, vectorSha: string)
  datatype Entry = Entry(id: string, contentSha: string, vectorSha: string)
  datatype PreparedSet = PreparedSet(customer: string, namespace: string, generation: nat, digest: string,
                                     profile: Profile, embeddings: seq<Prepared>, setSha: string)

  datatype EmbeddingError = InvalidContract | ClassificationMismatch | ResultMismatch | DimensionMismatch
                          | MaterializationFailed
  datatype Outcome = Done(result: Result<PreparedSet, EmbeddingError>) | Cancelled

  /** `vectorSha` is the digest a vector must carry, `setSha` that of a whole set. */
  datatype Digests = Digests(vectorSha: (string, seq<real>) -> string,
                             setSha: (string, string, string, nat, string, seq<Entry>) -> string)

  type Provider = seq<Input> -> Reply

  function ById(): (Input, Input) -> bool {
    (a: Input, b: Input) => StringLe(a.id, b.id)
  }

  function PreparedById(): (Prepared, Prepared) -> bool {
    (a: Prepared, b: Prepared) => StringLe(a.id, b.id)
  }

  ghost predicate UniqueIds(chunks: seq<Input>) {
    forall i, j | 0 <= i < j < |chunks| :: chunks[i].id != chunks[j].id
  }

  /** The dictionary of the returned vectors; a later one replaces an earlier one. */
  function Returned(vectors: seq<Vector>): map<string, Vector> {
    if vectors == [] then map[]
    else Returned(vectors[..|vectors| - 1])[vectors[|vectors| - 1].id := vectors[|vectors| - 1]]
  }

  /** The reply holds `v` under this id, as its last vector with it. */
  ghost predicate Holds(vectors: seq<Vector>, id: string, v: Vector) {
    exists k :: 0 <= k < |vectors| && vectors[k] == v && v.id == id && forall j | k < j < |vectors| :: vectors[j].id != id
  }

  lemma {:induction false} ReturnedIs(vectors: seq<Vector>, id: string)
    ensures id in Returned(vectors) ==> Holds(vectors, id, Returned(vectors)[id])
    ensures id in Returned(vectors) <==> exists k :: 0 <= k < |vectors| && vectors[k].id == id
  {
    if vectors != [] {
      var n := |vectors| - 1;
      ReturnedIs(vectors[..n], id);
      assert vectors == vectors[..n] + [vectors[n]];
      HoldsLast(vectors[..n], vectors[n], id);
    }
  }

  /** One more vector takes the place of those before it with its id, and of no others. */
  lemma HoldsLast(before: seq<Vector>, last: Vector, id: string)
    ensures last.id == id ==> Holds(before + [last], id, last)
    ensures last.id != id ==> forall v | Holds(before, id, v) :: Holds(before + [last], id, v)
    ensures (exists k :: 0 <= k < |before| + 1 && (before + [last])[k].id == id) <==>
      last.id == id || exists k :: 0 <= k < |before| && before[k].id == id
  {
    var all := before + [last];
    assert all[|before|] == last && forall k | 0 <= k < |before| :: all[k] == before[k];
    if last.id != id {
      forall v | Holds(before, id, v)
        ensures Holds(all, id, v)
      {
        var k :| 0 <= k < |before| && before[k] == v && v.id == id && forall j | k < j < |before| :: before[j].id != id;
        assert all[k] == v;
      }
    }
  }

  lemma HoldsOne(vectors: seq<Vector>, id: string, v: Vector, w: Vector)
    requires Holds(vectors, id, v) && Holds(vectors, id, w)
    ensures v == w
  {
  }

  function IdSet(inputs: seq<Input>): set<string> {
    set i | 0 <= i < |inputs| :: inputs[i].id
  }

  function PrepareOne(d: Digests, p: Profile, input: Input, v: Vector): Result<Prepared, EmbeddingError> {
    if |v.values| != p.dimensions then Err(DimensionMismatch)
    else if d.vectorSha(input.id, v.values) != v.sha then Err(MaterializationFailed)
    else Ok(Prepared(input.id, input.contentSha, v.values, v.sha))
  }

  function EntryOf(p: Prepared): Entry {
    Entry(p.id, p.contentSha, p.vectorSha)
  }

  function Entries(s: seq<Prepared>): (r: seq<Entry>)
    ensures |r| == |s| && forall i | 0 <= i < |r| :: r[i] == Entry(s[i].id, s[i].contentSha, s[i].vectorSha)
  {
    seq(|s|, i requires 0 <= i < |s| => EntryOf(s[i]))
  }

  function SetOf(d: Digests, source: Source, p: Profile, s: seq<Prepared>): PreparedSet {
    PreparedSet(source.customer, source.namespace, source.generation, source.digest, p, s,
                d.setSha(source.customer, source.namespace, p.sha, source.generation, source.digest, Entries(s)))
  }

  /** `PreparedEmbeddingSet.validate_complete_set`. */
  ghost predicate SetValid(d: Digests, s: PreparedSet) {
    && s.embeddings != [] && Sorted(s.embeddings, PreparedById())
    && (forall i, j | 0 <= i < j < |s.embeddings| :: s.embeddings[i].id != s.embeddings[j].id)
    && (forall i | 0 <= i < |s.embeddings| :: |s.embeddings[i].values| == s.profile.dimensions)
    && s.setSha == d.setSha(s.customer, s.namespace, s.profile.sha, s.generation, s.digest, Entries(s.embeddings))
  }

  // --- a provider that embeds each input on its own ------------------------------------------

  /** Every batch yields, in some order, the vector of each of its inputs. */
  ghost predicate Independent(provider: Provider, p: Profile, vector: Input -> Vector) {
    forall batch: seq<Input> | UniqueIds(batch) :: Answers(provider, p, vector, batch)
  }

  ghost predicate Answers(provider: Provider, p: Profile, vector: Input -> Vector, batch: seq<Input>) {
    && provider(batch).Embedded? && provider(batch).profileSha == p.sha
    && Returned(provider(batch).vectors).Keys == IdSet(batch)
    && forall i | 0 <= i < |batch| :: batch[i].id in Returned(provider(batch).vectors)
                                      && Returned(provider(batch).vectors)[batch[i].id] == vector(batch[i])
  }

  /** What one call over all chunks amounts to: chunk after chunk, up to the first failure. */
  function OneByOne(d: Digests, p: Profile, vector: Input -> Vector, chunks: seq<Input>):
    Result<seq<Prepared>, EmbeddingError>
  {
    if chunks == [] then Ok([])
    else
      var before, last := OneByOne(d, p, vector, chunks[..|chunks| - 1]), chunks[|chunks| - 1];
      if before.Err? then before
      else
        var one := PrepareOne(d, p, last, vector(last));
        if one.Err? then Err(one.error) else Ok(before.value + [one.value])
  }

  lemma {:induction false} StaysFailed(d: Digests, p: Profile, vector: Input -> Vector, chunks: seq<Input>, i: nat)
    requires i <= |chunks| && OneByOne(d, p, vector, chunks[..i]).Err?
    ensures OneByOne(d, p, vector, chunks) == OneByOne(d, p, vector, chunks[..i])
    decreases |chunks| - i
  {
    if i == |chunks| {
      assert chunks[..i] == chunks;
    } else {
      assert chunks[..i + 1][..i] == chunks[..i];
      StaysFailed(d, p, vector, chunks, i + 1);
    }
  }

  // --- batches -------------------------------------------------------------------------------

  /** The prepared vectors are those of the chunks, in order. */
  ghost predicate Covers(d: Digests, p: Profile, s: seq<Prepared>, chunks: seq<Input>) {
    && |s| == |chunks|
    && forall i | 0 <= i < |s| ::
         && s[i].id == chunks[i].id && s[i].contentSha == chunks[i].contentSha
         && |s[i].values| == p.dimensions && s[i].vectorSha == d.vectorSha(s[i].id, s[i].values)
  }

  lemma CoversSnoc(d: Digests, p: Profile, s: seq<Prepared>, chunks: seq<Input>, i: nat, v: Vector)
    requires i < |chunks| && Covers(d, p, s, chunks[..i]) && PrepareOne(d, p, chunks[i], v).Ok?
    ensures Covers(d, p, s + [PrepareOne(d, p, chunks[i], v).value], chunks[..i + 1])
  {
    var longer := s + [PrepareOne(d, p, chunks[i], v).value];
    assert forall j | 0 <= j < i :: chunks[..i + 1][j] == chunks[..i][j] && longer[j] == s[j];
  }

  /** The vector is of the right size and carries its own digest. */
  predicate Checked(d: Digests, p: Profile, id: string, v: Vector) {
    |v.values| == p.dimensions && v.sha == d.vectorSha(id, v.values)
  }

  /** A reply that can be used for these inputs: of the right profile, with vectors for exactly
      their ids, each of them checked. */
  ghost predicate Usable(d: Digests, p: Profile, reply: Reply, inputs: seq<Input>) {
    && reply.Embedded? && reply.profileSha == p.sha && Expected(reply.vectors, inputs)
    && forall i | 0 <= i < |inputs| :: HoldsChecked(d, p, reply.vectors, inputs[i].id)
  }

  /** Every vector is that of an input. */
  ghost predicate Expected(vectors: seq<Vector>, inputs: seq<Input>) {
    forall k | 0 <= k < |vectors| :: IsInput(inputs, vectors[k].id)
  }

  ghost predicate IsInput(inputs: seq<Input>, id: string) {
    exists i :: 0 <= i < |inputs| && inputs[i].id == id
  }

  ghost predicate HoldsChecked(d: Digests, p: Profile, vectors: seq<Vector>, id: string) {
    exists v :: Holds(vectors, id, v) && Checked(d, p, id, v)
  }

  /** The prepared vectors are the ones that the reply holds. */
  ghost predicate TakenFrom(reply: Reply, s: seq<Prepared>) {
    reply.Embedded? && forall i | 0 <= i < |s| :: Holds(reply.vectors, s[i].id, Vector(s[i].id, s[i].values, s[i].vectorSha))
  }

  lemma KeysIff(vectors: seq<Vector>, inputs: seq<Input>)
    ensures Returned(vectors).Keys == IdSet(inputs) <==>
      Expected(vectors, inputs) && forall i | 0 <= i < |inputs| :: inputs[i].id in Returned(vectors)
  {
    forall id
      ensures id in Returned(vectors) <==> exists k :: 0 <= k < |vectors| && vectors[k].id == id
      ensures id in IdSet(inputs) <==> IsInput(inputs, id)
    {
      ReturnedIs(vectors, id);
    }
    hide Returned, IdSet, IsInput;
    forall i | 0 <= i < |inputs|
      ensures IsInput(inputs, inputs[i].id)
    {
      InputIs(inputs, i);
    }
    if Expected(vectors, inputs) && forall i | 0 <= i < |inputs| :: inputs[i].id in Returned(vectors) {
      forall id | IsInput(inputs, id)
        ensures id in Returned(vectors)
      {
        var i := InputAt(inputs, id);
      }
      assert Returned(vectors).Keys == IdSet(inputs);
    }
  }

  lemma InputIs(inputs: seq<Input>, i: nat)
    requires i < |inputs|
    ensures IsInput(inputs, inputs[i].id)
  {
  }

  lemma InputAt(inputs: seq<Input>, id: string) returns (i: nat)
    requires IsInput(inputs, id)
    ensures i < |inputs| && inputs[i].id == id
  {
    i :| 0 <= i < |inputs| && inputs[i].id == id;
  }

  lemma UsableIff(d: Digests, p: Profile, reply: Reply, inputs: seq<Input>)
    requires reply.Embedded?
    ensures Usable(d, p, reply, inputs) <==>
      && reply.profileSha == p.sha && Returned(reply.vectors).Keys == IdSet(inputs)
      && forall i | 0 <= i < |inputs| ::
           inputs[i].id in Returned(reply.vectors) && Checked(d, p, inputs[i].id, Returned(reply.vectors)[inputs[i].id])
  {
    KeysIff(reply.vectors, inputs);
    hide Expected, HoldsChecked, Checked, IdSet;
    forall i | 0 <= i < |inputs|
      ensures HoldsChecked(d, p, reply.vectors, inputs[i].id) <==>
        inputs[i].id in Returned(reply.vectors) && Checked(d, p, inputs[i].id, Returned(reply.vectors)[inputs[i].id])
    {
      HeldIff(d, p, reply.vectors, inputs[i].id);
    }
  }

  lemma HeldIff(d: Digests, p: Profile, vectors: seq<Vector>, id: string)
    ensures HoldsChecked(d, p, vectors, id) <==>
      id in Returned(vectors) && Checked(d, p, id, Returned(vectors)[id])
  {
    ReturnedIs(vectors, id);
    hide Returned, Checked;
    if v :| Holds(vectors, id, v) && Checked(d, p, id, v) {
      HoldsOne(vectors, id, v, Returned(vectors)[id]);
    }
  }

  ghost predicate Ascending(chunks: seq<Input>) {
    forall i, j | 0 <= i < j < |chunks| :: StringLe(chunks[i].id, chunks[j].id) && chunks[i].id != chunks[j].id
  }

  /** The ids of ascending inputs are already in sorted order. */
  lemma IdsSorted(inputs: seq<Input>)
    requires Ascending(inputs)
    ensures Sort(Ids(inputs), StringLe) == Ids(inputs)
  {
    var ids := Ids(inputs);
    StringOrder(ids);
    SortSorts(ids, StringLe);
    SameElements(Sort(ids, StringLe), ids);
    hide Sort;
    SortedUnique(ids, Sort(ids, StringLe), StringLe);
  }

  function Ids(inputs: seq<Input>): (r: seq<string>)
    ensures |r| == |inputs| && forall i | 0 <= i < |r| :: r[i] == inputs[i].id
  {
    seq(|inputs|, i requires 0 <= i < |inputs| => inputs[i].id)
  }

  datatype Batch = Prepares(items: seq<Prepared>) | Refused(error: EmbeddingError) | Stopped

  /** One batch of inputs in ascending order. */
  method EmbedBatch(d: Digests, p: Profile, provider: Provider, inputs: seq<Input>, ghost vector: Input -> Vector)
    returns (r: Batch)
    requires Ascending(inputs)
    ensures r.Prepares? <==> Usable(d, p, provider(inputs), inputs)
    ensures r.Prepares? ==> Covers(d, p, r.items, inputs) && TakenFrom(provider(inputs), r.items)
    ensures r.Stopped? <==> provider(inputs).ProviderCancelled?
    ensures Answers(provider, p, vector, inputs) ==>
      r == match OneByOne(d, p, vector, inputs)
           case Ok(items) => Prepares(items)
           case Err(error) => Refused(error)
  {
    var profileSha: string, vectors: seq<Vector>;
    match provider(inputs) {
      case Embedded(sha, vs) => profileSha, vectors := sha, vs;
      case ProviderFails => return Refused(MaterializationFailed);
      case ProviderCancelled => return Stopped;
    }
    var returned := Returned(vectors);
    UsableIff(d, p, provider(inputs), inputs);
    hide Usable;
    if profileSha != p.sha || returned.Keys != IdSet(inputs) {
      return Refused(ResultMismatch);
    }
    IdsSorted(inputs);
    var order := Sort(Ids(inputs), StringLe);
    assert forall i | 0 <= i < |inputs| :: order[i] == inputs[i].id && order[i] in IdSet(inputs);
    ghost var answers := Answers(provider, p, vector, inputs);
    if answers {
      AnswersAt(provider, p, vector, inputs);
    }
    hide *;
    r := PrepareAll(d, p, inputs, order, returned, vector, answers);
    if r.Prepares? {
      AllHeld(vectors, inputs, r.items);
      TakenIs(provider(inputs), r.items);
    }
  }

  lemma AllHeld(vectors: seq<Vector>, inputs: seq<Input>, items: seq<Prepared>)
    requires |items| == |inputs|
    requires forall i | 0 <= i < |items| :: items[i].id == inputs[i].id && FromMap(Returned(vectors), items[i])
    ensures forall i | 0 <= i < |items| :: Holds(vectors, items[i].id, Vector(items[i].id, items[i].values, items[i].vectorSha))
  {
    hide Returned, Holds;
    forall i | 0 <= i < |items|
      ensures Holds(vectors, items[i].id, Vector(items[i].id, items[i].values, items[i].vectorSha))
    {
      ReturnedIs(vectors, items[i].id);
      HoldsId(vectors, items[i].id, Returned(vectors)[items[i].id]);
      assert FromMap(Returned(vectors), items[i]);
    }
  }

  lemma HoldsId(vectors: seq<Vector>, id: string, v: Vector)
    requires Holds(vectors, id, v)
    ensures v.id == id
  {
  }

  lemma TakenIs(reply: Reply, items: seq<Prepared>)
    requires reply.Embedded?
    requires forall i | 0 <= i < |items| ::
      Holds(reply.vectors, items[i].id, Vector(items[i].id, items[i].values, items[i].vectorSha))
    ensures TakenFrom(reply, items)
  {
  }

  /** The item carries what the dictionary holds under its id. */
  predicate FromMap(returned: map<string, Vector>, item: Prepared) {
    item.id in returned && item.values == returned[item.id].values && item.vectorSha == returned[item.id].sha
  }

  lemma PrepareOneIs(d: Digests, p: Profile, input: Input, v: Vector)
    ensures PrepareOne(d, p, input, v).Ok? <==> Checked(d, p, input.id, v)
    ensures PrepareOne(d, p, input, v).Ok? ==>
      var item := PrepareOne(d, p, input, v).value;
      item.id == input.id && item.values == v.values && item.vectorSha == v.sha
  {
  }

  /** Check the returned vectors one by one, in id order. */
  method PrepareAll(d: Digests, p: Profile, inputs: seq<Input>, order: seq<string>, returned: map<string, Vector>,
                    ghost vector: Input -> Vector, ghost answers: bool)
    returns (r: Batch)
    requires |order| == |inputs|
    requires forall i | 0 <= i < |inputs| :: order[i] == inputs[i].id && order[i] in returned
    requires answers ==> forall i | 0 <= i < |inputs| :: returned[inputs[i].id] == vector(inputs[i])
    ensures r.Prepares? <==> forall i | 0 <= i < |inputs| :: Checked(d, p, inputs[i].id, returned[inputs[i].id])
    ensures r.Prepares? ==> Covers(d, p, r.items, inputs)
    ensures r.Prepares? ==>
      |r.items| == |inputs| && forall i | 0 <= i < |inputs| :: r.items[i].id == inputs[i].id && FromMap(returned, r.items[i])
    ensures !r.Stopped?
    ensures answers ==>
      r == match OneByOne(d, p, vector, inputs)
           case Ok(items) => Prepares(items)
           case Err(error) => Refused(error)
  {
    EmptyCovers(d, p, vector);
    hide *;
    var items: seq<Prepared> := [];
    for i := 0 to |order|
      invariant Covers(d, p, items, inputs[..i])
      invariant |items| == i && forall j | 0 <= j < i :: items[j].id == inputs[j].id && FromMap(returned, items[j])
      invariant forall j | 0 <= j < i :: Checked(d, p, inputs[j].id, returned[inputs[j].id])
      invariant answers ==> OneByOne(d, p, vector, inputs[..i]) == Ok(items)
    {
      NextOne(d, p, vector, inputs, i);
      var v := returned[order[i]];
      assert answers ==> v == vector(inputs[i]);
      var one := PrepareOne(d, p, inputs[i], v);
      PrepareOneIs(d, p, inputs[i], v);
      if one.Err? {
        if answers {
          StaysFailed(d, p, vector, inputs, i + 1);
        }
        return Refused(one.error);
      }
      CoversSnoc(d, p, items, inputs, i, v);
      FromMapIs(returned, one.value);
      items := items + [one.value];
    }
    assert inputs[..|inputs|] == inputs;
    r := Prepares(items);
  }

  lemma FromMapIs(returned: map<string, Vector>, item: Prepared)
    ensures item.id in returned && item.values == returned[item.id].values && item.vectorSha == returned[item.id].sha
            <==> FromMap(returned, item)
  {
  }

  lemma AnswersAt(provider: Provider, p: Profile, vector: Input -> Vector, batch: seq<Input>)
    requires Answers(provider, p, vector, batch)
    ensures provider(batch).Embedded?
    ensures forall i | 0 <= i < |batch| ::
      && batch[i].id in Returned(provider(batch).vectors)
      && Returned(provider(batch).vectors)[batch[i].id] == vector(batch[i])
  {
  }

  lemma {:induction false} OneByOneConcat(d: Digests, p: Profile, vector: Input -> Vector, a: seq<Input>, b: seq<Input>)
    requires OneByOne(d, p, vector, a).Ok?
    ensures OneByOne(d, p, vector, a + b) ==
      match OneByOne(d, p, vector, b)
      case Ok(items) => Ok(OneByOne(d, p, vector, a).value + items)
      case Err(error) => Err(error)
    decreases |b|
  {
    hide PrepareOne;
    var x := OneByOne(d, p, vector, a).value;
    if b == [] {
      assert a + b == a && x + [] == x;
    } else {
      var n := |b| - 1;
      assert (a + b)[..|a + b| - 1] == a + b[..n];
      OneByOneConcat(d, p, vector, a, b[..n]);
      var before := OneByOne(d, p, vector, b[..n]);
      if before.Ok? && PrepareOne(d, p, b[n], vector(b[n])).Ok? {
        var one := PrepareOne(d, p, b[n], vector(b[n])).value;
        assert (x + before.value) + [one] == x + (before.value + [one]);
      }
    }
  }

  lemma NextOne(d: Digests, p: Profile, vector: Input -> Vector, chunks: seq<Input>, i: nat)
    requires i < |chunks|
    ensures OneByOne(d, p, vector, chunks[..i + 1]) ==
      var before := OneByOne(d, p, vector, chunks[..i]);
      if before.Err? then before
      else
        var one := PrepareOne(d, p, chunks[i], vector(chunks[i]));
        if one.Err? then Err(one.error) else Ok(before.value + [one.value])
  {
    assert chunks[..i + 1][..i] == chunks[..i];
  }

  lemma CoversConcat(d: Digests, p: Profile, s: seq<Prepared>, a: seq<Input>, t: seq<Prepared>, b: seq<Input>)
    requires Covers(d, p, s, a) && Covers(d, p, t, b)
    ensures Covers(d, p, s + t, a + b)
  {
  }

  function Shorter(a: nat, b: nat): nat {
    if a < b then a else b
  }

  /** The provider gave this vector in its reply to a batch of the chunks. */
  ghost predicate Given(provider: Provider, chunks: seq<Input>, item: Prepared) {
    exists a, b :: 0 <= a <= b <= |chunks| && InReply(provider(chunks[a..b]), item)
  }

  ghost predicate InReply(reply: Reply, item: Prepared) {
    reply.Embedded? && Holds(reply.vectors, item.id, Vector(item.id, item.values, item.vectorSha))
  }

  ghost predicate AllGiven(provider: Provider, chunks: seq<Input>, items: seq<Prepared>) {
    forall i | 0 <= i < |items| :: Given(provider, chunks, items[i])
  }

  lemma GivenMore(provider: Provider, chunks: seq<Input>, items: seq<Prepared>, a: nat, b: nat, more: seq<Prepared>)
    requires AllGiven(provider, chunks, items) && a <= b <= |chunks| && TakenFrom(provider(chunks[a..b]), more)
    ensures AllGiven(provider, chunks, items + more)
  {
    hide Holds;
    var all := items + more;
    forall i | 0 <= i < |all|
      ensures Given(provider, chunks, all[i])
    {
      if i >= |items| {
        assert all[i] == more[i - |items|];
        assert InReply(provider(chunks[a..b]), all[i]);
      }
    }
  }

  /** All chunks, `batchSize` at a time. */
  method EmbedAll(d: Digests, p: Profile, provider: Provider, chunks: seq<Input>, batchSize: nat,
                  ghost vector: Input -> Vector) returns (r: Batch)
    requires Ascending(chunks) && batchSize >= 1
    ensures r.Prepares? ==> Covers(d, p, r.items, chunks) && AllGiven(provider, chunks, r.items)
    ensures Independent(provider, p, vector) ==>
      r == match OneByOne(d, p, vector, chunks)
           case Ok(items) => Prepares(items)
           case Err(error) => Refused(error)
  {
    var prepared: seq<Prepared> := [];
    var offset := 0;
    assert AllGiven(provider, chunks, []);
    hide OneByOne, Covers, Answers, AllGiven, TakenFrom, Usable;
    EmptyCovers(d, p, vector);
    while offset < |chunks|
      invariant offset <= |chunks| && Covers(d, p, prepared, chunks[..offset])
      invariant AllGiven(provider, chunks, prepared)
      invariant Independent(provider, p, vector) ==> OneByOne(d, p, vector, chunks[..offset]) == Ok(prepared)
    {
      var next := Shorter(offset + batchSize, |chunks|);
      var inputs := chunks[offset..next];
      assert chunks[..offset] + inputs == chunks[..next];
      var batch := EmbedBatch(d, p, provider, inputs, vector);
      if Independent(provider, p, vector) {
        assert UniqueIds(inputs);
        assert Answers(provider, p, vector, inputs);
        OneByOneConcat(d, p, vector, chunks[..offset], inputs);
        if OneByOne(d, p, vector, inputs).Err? {
          StaysFailed(d, p, vector, chunks, next);
        }
      }
      if !batch.Prepares? {
        return batch;
      }
      CoversConcat(d, p, prepared, chunks[..offset], batch.items, inputs);
      GivenMore(provider, chunks, prepared, offset, next, batch.items);
      prepared := prepared + batch.items;
      offset := next;
    }
    assert chunks[..offset] == chunks;
    r := Prepares(prepared);
  }

  lemma EmptyCovers(d: Digests, p: Profile, vector: Input -> Vector)
    ensures Covers(d, p, [], []) && OneByOne(d, p, vector, []) == Ok([])
  {
  }

  // --- the materialiser ----------------------------------------------------------------------

  /** What materialising amounts to when inputs are embedded independently: no batch size in it. */
  function Materialized(d: Digests, source: Source, p: Profile, vector: Input -> Vector): Result<PreparedSet, EmbeddingError> {
    if source.chunks == [] || !UniqueIdsFrom(source.chunks) then Err(InvalidContract)
    else if exists i | 0 <= i < |source.chunks| :: source.chunks[i].classification !in p.classifications
    then Err(ClassificationMismatch)
    else match OneByOne(d, p, vector, Sort(source.chunks, ById()))
      case Ok(items) => Ok(SetOf(d, source, p, items))
      case Err(error) => Err(error)
  }

  predicate UniqueIdsFrom(chunks: seq<Input>) {
    forall i, j | 0 <= i < |chunks| && 0 <= j < |chunks| && i != j :: chunks[i].id != chunks[j].id
  }

  /** Materialise a generation: whatever the provider does, a result covers every chunk exactly
      once in id order and is a valid complete set; and for a provider that embeds inputs
      independently the result does not depend on the batch size. */
  method Materialize(d: Digests, source: Source, p: Profile, provider: Provider, batchSize: nat,
                     ghost vector: Input -> Vector) returns (r: Outcome)
    requires 1 <= batchSize <= 512
    ensures r.Done? && r.result.Ok? ==>
      && SetValid(d, r.result.value)
      && Covers(d, p, r.result.value.embeddings, Sort(source.chunks, ById()))
      && AllGiven(provider, Sort(source.chunks, ById()), r.result.value.embeddings)
      && r.result.value.customer == source.customer && r.result.value.namespace == source.namespace
      && r.result.value.generation == source.generation && r.result.value.digest == source.digest
      && r.result.value.profile == p
    ensures Independent(provider, p, vector) ==> r == Done(Materialized(d, source, p, vector))
  {
    hide Sort, OneByOne, Covers, SetValid, SetOf, Answers, AllGiven, UniqueIdsFrom, Ascending;
    if source.chunks == [] || !UniqueIdsFrom(source.chunks) {
      return Done(Err(InvalidContract));
    }
    var chunks := Sort(source.chunks, ById());
    SortAscends(source.chunks);
    SameElements(chunks, source.chunks);
    SameClassifications(source.chunks, chunks, p);
    if exists i | 0 <= i < |chunks| :: chunks[i].classification !in p.classifications {
      return Done(Err(ClassificationMismatch));
    }
    var batches := EmbedAll(d, p, provider, chunks, batchSize, vector);
    match batches {
      case Stopped => return Cancelled;
      case Refused(error) => return Done(Err(error));
      case Prepares(items) =>
        hide *;
        CoversSorted(d, p, items, chunks);
        var ordered := Sort(items, PreparedById());
        CoveredSetValid(d, source, p, items, chunks);
        r := Done(Ok(SetOf(d, source, p, ordered)));
    }
  }

  lemma SameClassifications(a: seq<Input>, b: seq<Input>, p: Profile)
    requires forall x :: x in a <==> x in b
    ensures (exists i | 0 <= i < |a| :: a[i].classification !in p.classifications)
       <==> (exists i | 0 <= i < |b| :: b[i].classification !in p.classifications)
  {
    if i :| 0 <= i < |a| && a[i].classification !in p.classifications {
      assert a[i] in b;
    }
    if i :| 0 <= i < |b| && b[i].classification !in p.classifications {
      assert b[i] in a;
    }
  }

  lemma InputOrder(s: seq<Input>)
    ensures OrderOn(s, ById())
  {
    forall x, y | x in s && y in s
      ensures ById()(x, y) || ById()(y, x)
    {
      StringLeTotal(x.id, y.id);
    }
    forall x, y, z | x in s && y in s && z in s && ById()(x, y) && ById()(y, z)
      ensures ById()(x, z)
    {
      StringLeTransitive(x.id, y.id, z.id);
    }
  }

  lemma SortAscends(chunks: seq<Input>)
    requires UniqueIdsFrom(chunks)
    ensures Ascending(Sort(chunks, ById()))
  {
    var s := Sort(chunks, ById());
    InputOrder(chunks);
    SortSorts(chunks, ById());
    SameElements(chunks, s);
    assert Distinct(chunks);
    PermutationDistinct(chunks, s);
    hide Sort;
    forall i, j | 0 <= i < j < |s|
      ensures StringLe(s[i].id, s[j].id) && s[i].id != s[j].id
    {
      assert ById()(s[i], s[j]);
      assert s[i] in chunks && s[j] in chunks && s[i] != s[j];
    }
  }

  lemma CoversSorted(d: Digests, p: Profile, items: seq<Prepared>, chunks: seq<Input>)
    requires Covers(d, p, items, chunks) && Ascending(chunks)
    ensures Sort(items, PreparedById()) == items
  {
    CoversOrder(d, p, items, chunks);
    hide *;
    SortSorts(items, PreparedById());
    SortedUnique(items, Sort(items, PreparedById()), PreparedById());
  }

  lemma CoversOrder(d: Digests, p: Profile, items: seq<Prepared>, chunks: seq<Input>)
    requires Covers(d, p, items, chunks) && Ascending(chunks)
    ensures Sorted(items, PreparedById()) && OrderOn(items, PreparedById()) && NoTies(items, PreparedById())
  {
    var le := PreparedById();
    hide StringLe;
    forall x, y | x in items && y in items
      ensures le(x, y) || le(y, x)
      ensures le(x, y) && le(y, x) ==> x == y
    {
      StringLeTotal(x.id, y.id);
      var i :| 0 <= i < |items| && items[i] == x;
      var j :| 0 <= j < |items| && items[j] == y;
    }
    forall x, y, z | x in items && y in items && z in items && le(x, y) && le(y, z)
      ensures le(x, z)
    {
      StringLeTransitive(x.id, y.id, z.id);
    }
  }

  lemma CoveredSetValid(d: Digests, source: Source, p: Profile, items: seq<Prepared>, chunks: seq<Input>)
    requires Covers(d, p, items, chunks) && Ascending(chunks) && chunks != []
    ensures SetValid(d, SetOf(d, source, p, items))
    ensures var s := SetOf(d, source, p, items);
      && s.embeddings == items && s.customer == source.customer && s.namespace == source.namespace
      && s.generation == source.generation && s.digest == source.digest && s.profile == p
  {
  }
}
