/** Reciprocal rank fusion of a lexical and a semantic candidate list with exact scores. */
module Fusion {
  import opened Wrappers
  import opened Ordering

  type Positive = n: nat | n >= 1 witness 1

  /** `metadata` is everything of a match but its id and its score. */
  datatype Match = Match(id: string, metadata: string, relevance: real)
  datatype Policy = Policy(lexicalLimit: Positive, semanticLimit: Positive, finalLimit: Positive,
                           lexicalWeight: Positive, semanticWeight: Positive, rankConstant: Positive)
  datatype FusionError = CandidateLimitExceeded | DuplicateCandidate | MetadataMismatch

  // --- the declarative form ------------------------------------------------------------------

  function IdsOf(items: seq<Match>): (r: seq<string>)
    ensures |r| == |items| && forall i | 0 <= i < |r| :: r[i] == items[i].id
  {
    seq(|items|, i requires 0 <= i < |items| => items[i].id)
  }

  /** The one-based rank of `id`, or zero when it is not listed. */
  function Rank(items: seq<Match>, id: string): (r: nat)
    ensures r <= |items| && (r > 0 ==> items[r - 1].id == id)
  {
    if items == [] then 0
    else if items[|items| - 1].id == id then |items|
    else Rank(items[..|items| - 1], id)
  }

  /** What one list adds to the score of an id at a rank. */
  function Share(rank: nat, weight: Positive, p: Policy): real {
    if rank == 0 then 0.0 else weight as real / (p.rankConstant + rank) as real
  }

  function Score(lexical: seq<Match>, semantic: seq<Match>, p: Policy, id: string): real {
    Share(Rank(lexical, id), p.lexicalWeight, p) + Share(Rank(semantic, id), p.semanticWeight, p)
  }

  /** `a` goes before `b`, or they are the same: larger score first, then smaller id. */
  predicate Before(lexical: seq<Match>, semantic: seq<Match>, p: Policy, a: string, b: string) {
    var x, y := Score(lexical, semantic, p, a), Score(lexical, semantic, p, b);
    x > y || (x == y && StringLe(a, b))
  }

  function Order(lexical: seq<Match>, semantic: seq<Match>, p: Policy): (string, string) -> bool {
    (a: string, b: string) => Before(lexical, semantic, p, a, b)
  }

  predicate Listed(lexical: seq<Match>, semantic: seq<Match>, id: string) {
    Rank(lexical, id) > 0 || Rank(semantic, id) > 0
  }

  /** The stored match of an id: the later list replaces the earlier one. */
  function Chosen(lexical: seq<Match>, semantic: seq<Match>, id: string): Match
    requires Listed(lexical, semantic, id)
  {
    if Rank(semantic, id) > 0 then semantic[Rank(semantic, id) - 1] else lexical[Rank(lexical, id) - 1]
  }

  ghost predicate Consistent(lexical: seq<Match>, semantic: seq<Match>) {
    forall l, s | l in lexical && s in semantic :: l.id == s.id ==> l.metadata == s.metadata
  }

  function Shorter(a: nat, b: nat): nat {
    if a < b then a else b
  }

  /** `out` is the best `k` of the listed ids in order: it says nothing about how they were
      found. */
  ghost predicate TopK(out: seq<string>, lexical: seq<Match>, semantic: seq<Match>, p: Policy, k: nat) {
    && Distinct(out) && Sorted(out, Order(lexical, semantic, p))
    && (forall id | id in out :: Listed(lexical, semantic, id))
    && |out| <= k
    && (forall id | Listed(lexical, semantic, id) && id !in out ::
          |out| == k && forall o | o in out :: Before(lexical, semantic, p, o, id))
  }

  // --- the order -----------------------------------------------------------------------------

  lemma BeforeTotal(lexical: seq<Match>, semantic: seq<Match>, p: Policy, a: string, b: string)
    ensures Before(lexical, semantic, p, a, b) || Before(lexical, semantic, p, b, a)
    ensures Before(lexical, semantic, p, a, b) && Before(lexical, semantic, p, b, a) ==> a == b
  {
    StringLeTotal(a, b);
  }

  lemma BeforeTransitive(lexical: seq<Match>, semantic: seq<Match>, p: Policy, a: string, b: string, c: string)
    requires Before(lexical, semantic, p, a, b) && Before(lexical, semantic, p, b, c)
    ensures Before(lexical, semantic, p, a, c)
  {
    hide Score;
    if StringLe(a, b) && StringLe(b, c) {
      StringLeTransitive(a, b, c);
    }
  }

  lemma IdOrder(s: seq<string>, lexical: seq<Match>, semantic: seq<Match>, p: Policy)
    ensures OrderOn(s, Order(lexical, semantic, p)) && NoTies(s, Order(lexical, semantic, p))
  {
    hide Before;
    forall x, y
      ensures (Before(lexical, semantic, p, x, y) || Before(lexical, semantic, p, y, x))
           && (Before(lexical, semantic, p, x, y) && Before(lexical, semantic, p, y, x) ==> x == y)
    {
      BeforeTotal(lexical, semantic, p, x, y);
    }
    forall x, y, z | Before(lexical, semantic, p, x, y) && Before(lexical, semantic, p, y, z)
      ensures Before(lexical, semantic, p, x, z)
    {
      BeforeTransitive(lexical, semantic, p, x, y, z);
    }
  }

  /** Only one sequence is the best `k`. */
  lemma {:induction false} TopKUnique(a: seq<string>, b: seq<string>, lexical: seq<Match>, semantic: seq<Match>,
                                      p: Policy, k: nat)
    requires TopK(a, lexical, semantic, p, k) && TopK(b, lexical, semantic, p, k)
    ensures a == b
  {
    forall i | 0 <= i < |a| && i < |b|
      ensures a[i] == b[i]
    {
      AgreeAt(a, b, lexical, semantic, p, k, i);
    }
    if |a| < |b| {
      Extends(a, b, lexical, semantic, p, k);
    } else if |b| < |a| {
      Extends(b, a, lexical, semantic, p, k);
    }
  }

  lemma NewAfterPrefix(a: seq<string>, b: seq<string>)
    requires Distinct(b) && |a| < |b| && forall i | 0 <= i < |a| :: a[i] == b[i]
    ensures b[|a|] !in a
  {
  }

  /** A best list that runs out first already has all the `k` it may have. */
  lemma Extends(a: seq<string>, b: seq<string>, lexical: seq<Match>, semantic: seq<Match>, p: Policy, k: nat)
    requires TopK(a, lexical, semantic, p, k) && TopK(b, lexical, semantic, p, k)
    requires forall i | 0 <= i < |a| && i < |b| :: a[i] == b[i]
    ensures |b| <= |a|
  {
    hide Before, Rank, Listed, Order;
    if |a| < |b| {
      NewAfterPrefix(a, b);
    }
  }

  lemma {:induction false} AgreeAt(a: seq<string>, b: seq<string>, lexical: seq<Match>, semantic: seq<Match>,
                                   p: Policy, k: nat, i: nat)
    requires TopK(a, lexical, semantic, p, k) && TopK(b, lexical, semantic, p, k)
    requires i < |a| && i < |b|
    ensures a[i] == b[i]
    decreases i
  {
    forall j | 0 <= j < i
      ensures a[j] == b[j]
    {
      AgreeAt(a, b, lexical, semantic, p, k, j);
    }
    NotAfter(a, b, lexical, semantic, p, k, i);
    NotAfter(b, a, lexical, semantic, p, k, i);
    BeforeTotal(lexical, semantic, p, a[i], b[i]);
  }

  lemma NotAfter(a: seq<string>, b: seq<string>, lexical: seq<Match>, semantic: seq<Match>,
                 p: Policy, k: nat, i: nat)
    requires TopK(a, lexical, semantic, p, k) && TopK(b, lexical, semantic, p, k)
    requires i < |a| && i < |b| && forall j | 0 <= j < i :: a[j] == b[j]
    ensures Before(lexical, semantic, p, a[i], b[i])
  {
    hide Before, Rank;
    assert a[i] in a && b[i] in b;
    if b[i] in a {
      var j :| 0 <= j < |a| && a[j] == b[i];
      assert j >= i;
      if j == i {
        BeforeTotal(lexical, semantic, p, a[i], a[i]);
      } else {
        assert Order(lexical, semantic, p)(a[i], a[j]);
      }
    }
  }

  // --- the loops -----------------------------------------------------------------------------

  /** The two dictionaries while the lists are read; `order` lists their keys. */
  datatype Tally = Tally(order: seq<string>, byId: map<string, Match>, scores: map<string, real>)

  const EMPTY := Tally([], map[], map[])

  predicate Clashes(t: Tally, item: Match) {
    item.id in t.byId && t.byId[item.id].metadata != item.metadata
  }

  function Record(t: Tally, item: Match, share: real): Tally {
    Tally(if item.id in t.byId then t.order else t.order + [item.id],
          t.byId[item.id := item],
          t.scores[item.id := (if item.id in t.scores then t.scores[item.id] else 0.0) + share])
  }

  /** The state after reading `items`, or nothing once two metadata differ. */
  function Read(t: Tally, items: seq<Match>, weight: Positive, p: Policy): Option<Tally> {
    if items == [] then Some(t)
    else match Read(t, items[..|items| - 1], weight, p)
      case None => None
      case Some(before) =>
        var item := items[|items| - 1];
        if Clashes(before, item) then None else Some(Record(before, item, Share(|items|, weight, p)))
  }

  method ReadList(t: Tally, items: seq<Match>, weight: Positive, p: Policy) returns (r: Option<Tally>)
    ensures r == Read(t, items, weight, p)
  {
    var now := t;
    for i := 0 to |items|
      invariant Read(t, items[..i], weight, p) == Some(now)
    {
      assert items[..i + 1][..i] == items[..i];
      if Clashes(now, items[i]) {
        Stuck(t, items, i + 1, weight, p);
        return None;
      }
      now := Record(now, items[i], Share(i + 1, weight, p));
    }
    assert items[..|items|] == items;
    r := Some(now);
  }

  lemma {:induction false} Stuck(t: Tally, items: seq<Match>, i: nat, weight: Positive, p: Policy)
    requires i <= |items| && Read(t, items[..i], weight, p).None?
    ensures Read(t, items, weight, p).None?
    decreases |items| - i
  {
    if i == |items| {
      assert items[..i] == items;
    } else {
      assert items[..i + 1][..i] == items[..i];
      Stuck(t, items, i + 1, weight, p);
    }
  }

  /** What a tally says about every id after the lists `lexical` and `semantic`. */
  ghost predicate Tallied(t: Tally, lexical: seq<Match>, semantic: seq<Match>, p: Policy) {
    && t.byId.Keys == t.scores.Keys && Distinct(t.order)
    && (forall id :: id in t.order <==> id in t.byId)
    && (forall id :: id in t.byId <==> Listed(lexical, semantic, id))
    && (forall id | id in t.byId ::
          t.scores[id] == Score(lexical, semantic, p, id) && t.byId[id] == Chosen(lexical, semantic, id))
  }

  lemma {:induction false} RankZero(items: seq<Match>, id: string)
    ensures Rank(items, id) == 0 <==> forall m | m in items :: m.id != id
  {
    if items != [] {
      RankZero(items[..|items| - 1], id);
      assert items == items[..|items| - 1] + [items[|items| - 1]];
    }
  }

  lemma FreshRank(items: seq<Match>)
    requires Distinct(IdsOf(items)) && items != []
    ensures var before, last := items[..|items| - 1], items[|items| - 1];
      && Distinct(IdsOf(before)) && Rank(before, last.id) == 0
      && (forall id :: Rank(items, id) == if id == last.id then |items| else Rank(before, id))
  {
    var before, last := items[..|items| - 1], items[|items| - 1];
    assert forall i | 0 <= i < |before| :: IdsOf(before)[i] == IdsOf(items)[i];
    RankZero(before, last.id);
    forall m | m in before
      ensures m.id != last.id
    {
      var k :| 0 <= k < |before| && before[k] == m;
      assert IdsOf(items)[k] != IdsOf(items)[|items| - 1];
    }
  }

  /** Recording one item keeps the tally right when only that item's standing changes. */
  lemma RecordKeeps(t: Tally, lexical: seq<Match>, semantic: seq<Match>, lexical': seq<Match>, semantic': seq<Match>,
                    item: Match, share: real, p: Policy)
    requires Tallied(t, lexical, semantic, p)
    requires forall id | id != item.id ::
               && (Listed(lexical', semantic', id) <==> Listed(lexical, semantic, id))
               && Score(lexical', semantic', p, id) == Score(lexical, semantic, p, id)
               && (Listed(lexical, semantic, id) ==>
                     Chosen(lexical', semantic', id) == Chosen(lexical, semantic, id))
    requires Listed(lexical', semantic', item.id) && Chosen(lexical', semantic', item.id) == item
    requires Score(lexical', semantic', p, item.id) == Score(lexical, semantic, p, item.id) + share
    requires !Listed(lexical, semantic, item.id) ==> Score(lexical, semantic, p, item.id) == 0.0
    ensures Tallied(Record(t, item, share), lexical', semantic', p)
  {
    hide Listed, Score, Chosen;
    var now := Record(t, item, share);
    assert now.byId.Keys == now.scores.Keys;
    assert item.id !in t.byId ==> item.id !in t.order;
    assert forall id :: id in now.order <==> id in now.byId;
  }

  lemma {:induction false} ReadLexical(items: seq<Match>, p: Policy)
    requires Distinct(IdsOf(items))
    ensures var r := Read(EMPTY, items, p.lexicalWeight, p);
      r.Some? && Tallied(r.value, items, [], p)
  {
    if items != [] {
      var before, last := items[..|items| - 1], items[|items| - 1];
      FreshRank(items);
      ReadLexical(before, p);
      var t := Read(EMPTY, before, p.lexicalWeight, p).value;
      LexicalStanding(items, p);
      assert !Clashes(t, last);
      RecordKeeps(t, before, [], items, [], last, Share(|items|, p.lexicalWeight, p), p);
    }
  }

  lemma LexicalStanding(items: seq<Match>, p: Policy)
    requires Distinct(IdsOf(items)) && items != []
    ensures var before, last := items[..|items| - 1], items[|items| - 1];
      && !Listed(before, [], last.id) && Listed(items, [], last.id) && Chosen(items, [], last.id) == last
      && (forall id | id != last.id ::
            && (Listed(items, [], id) <==> Listed(before, [], id))
            && Score(items, [], p, id) == Score(before, [], p, id)
            && (Listed(before, [], id) ==> Chosen(items, [], id) == Chosen(before, [], id)))
      && Score(before, [], p, last.id) == 0.0
      && Score(items, [], p, last.id) == Share(|items|, p.lexicalWeight, p)
  {
    FreshRank(items);
    assert forall id :: Rank([], id) == 0;
    hide Rank;
  }

  /** What reading the last item of the semantic list changes. */
  lemma SemanticStanding(lexical: seq<Match>, items: seq<Match>, p: Policy)
    requires Distinct(IdsOf(items)) && items != []
    ensures var before, last := items[..|items| - 1], items[|items| - 1];
      && Rank(before, last.id) == 0 && Distinct(IdsOf(before))
      && Listed(lexical, items, last.id) && Chosen(lexical, items, last.id) == last
      && (forall id | id != last.id ::
            && (Listed(lexical, items, id) <==> Listed(lexical, before, id))
            && Score(lexical, items, p, id) == Score(lexical, before, p, id)
            && (Listed(lexical, before, id) ==> Chosen(lexical, items, id) == Chosen(lexical, before, id)))
      && (!Listed(lexical, before, last.id) ==> Score(lexical, before, p, last.id) == 0.0)
      && Score(lexical, items, p, last.id)
         == Score(lexical, before, p, last.id) + Share(|items|, p.semanticWeight, p)
  {
    FreshRank(items);
    hide Rank;
  }

  /** No item of `items` disagrees with the lexical item of the same id. */
  ghost predicate Agrees(lexical: seq<Match>, items: seq<Match>) {
    forall m | m in items && Rank(lexical, m.id) > 0 ::
      lexical[Rank(lexical, m.id) - 1].metadata == m.metadata
  }

  lemma {:induction false} ReadSemantic(lexical: seq<Match>, items: seq<Match>, t: Tally, p: Policy)
    requires Distinct(IdsOf(items)) && Tallied(t, lexical, [], p)
    ensures var r := Read(t, items, p.semanticWeight, p);
      && (r.Some? <==> Agrees(lexical, items))
      && (r.Some? ==> Tallied(r.value, lexical, items, p))
  {
    assert Agrees(lexical, []);
    ReadLast(t, items, p.semanticWeight, p);
    hide Read, Score, Chosen, Listed, Agrees, Clashes, Share, Tallied, Rank, IdsOf, Record, Distinct;
    if items != [] {
      var before, last := items[..|items| - 1], items[|items| - 1];
      LastIsFresh(items);
      ReadSemantic(lexical, before, t, p);
      AgreesStep(lexical, items);
      var r := Read(t, before, p.semanticWeight, p);
      if r.Some? {
        LastClashes(r.value, lexical, before, last, p);
        ReadSemanticStep(lexical, items, r.value, p);
      }
    }
  }

  lemma ReadLast(t: Tally, items: seq<Match>, weight: Positive, p: Policy)
    ensures items == [] ==> Read(t, items, weight, p) == Some(t)
    ensures items != [] ==>
      var before, last := Read(t, items[..|items| - 1], weight, p), items[|items| - 1];
      Read(t, items, weight, p) ==
        if before.None? || Clashes(before.value, last) then None
        else Some(Record(before.value, last, Share(|items|, weight, p)))
  {
  }

  lemma LastIsFresh(items: seq<Match>)
    requires Distinct(IdsOf(items)) && items != []
    ensures Distinct(IdsOf(items[..|items| - 1])) && Rank(items[..|items| - 1], items[|items| - 1].id) == 0
  {
    FreshRank(items);
  }

  lemma ReadSemanticStep(lexical: seq<Match>, items: seq<Match>, t: Tally, p: Policy)
    requires Distinct(IdsOf(items)) && items != [] && Tallied(t, lexical, items[..|items| - 1], p)
    ensures Tallied(Record(t, items[|items| - 1], Share(|items|, p.semanticWeight, p)), lexical, items, p)
  {
    SemanticStanding(lexical, items, p);
    hide Score, Chosen, Listed, Share, Tallied, Rank, IdsOf, Record, Distinct;
    RecordKeeps(t, lexical, items[..|items| - 1], lexical, items, items[|items| - 1],
                Share(|items|, p.semanticWeight, p), p);
  }

  lemma AgreesStep(lexical: seq<Match>, items: seq<Match>)
    requires items != []
    ensures var before, last := items[..|items| - 1], items[|items| - 1];
      Agrees(lexical, items) <==> Agrees(lexical, before) && Agrees(lexical, [last])
  {
    hide Rank;
    var before, last := items[..|items| - 1], items[|items| - 1];
    assert items == before + [last];
    assert forall m :: m in items <==> m in before || m in [last];
  }

  lemma LastClashes(t: Tally, lexical: seq<Match>, before: seq<Match>, last: Match, p: Policy)
    requires Tallied(t, lexical, before, p) && Rank(before, last.id) == 0
    ensures Clashes(t, last) <==> !Agrees(lexical, [last])
  {
    hide Tallied, Rank, Agrees;
    StoredAt(t, lexical, before, last.id, p);
    AgreesOne(lexical, last);
  }

  lemma StoredAt(t: Tally, lexical: seq<Match>, before: seq<Match>, id: string, p: Policy)
    requires Tallied(t, lexical, before, p)
    ensures id in t.byId <==> Listed(lexical, before, id)
    ensures id in t.byId ==> t.byId[id] == Chosen(lexical, before, id)
  {
    hide Listed, Chosen, Score;
  }

  lemma AgreesOne(lexical: seq<Match>, last: Match)
    ensures Agrees(lexical, [last]) <==>
      (Rank(lexical, last.id) > 0 ==> lexical[Rank(lexical, last.id) - 1].metadata == last.metadata)
  {
    assert last in [last];
    hide Rank;
  }

  lemma {:induction false} RankOf(items: seq<Match>, i: nat)
    requires Distinct(IdsOf(items)) && i < |items|
    ensures Rank(items, items[i].id) == i + 1
  {
    var n := |items| - 1;
    if i < n {
      FreshRank(items);
      assert items[..n][i] == items[i];
      assert IdsOf(items)[i] != IdsOf(items)[n];
      RankOf(items[..n], i);
    }
  }

  predicate Has(items: seq<Match>, id: string, i: int) {
    0 <= i < |items| && items[i].id == id
  }

  lemma RankAt(items: seq<Match>, id: string)
    requires Distinct(IdsOf(items))
    ensures forall i | Has(items, id, i) :: Rank(items, id) == i + 1
    ensures (forall i :: !Has(items, id, i)) ==> Rank(items, id) == 0
  {
    forall i | Has(items, id, i)
      ensures Rank(items, id) == i + 1
    {
      RankOf(items, i);
    }
    if Rank(items, id) > 0 {
      assert Has(items, id, Rank(items, id) - 1);
    }
  }

  /** The score of an id, by the positions at which the lists hold it: each list adds its weight
      over the rank constant plus the one-based position. */
  lemma ScoreAt(lexical: seq<Match>, semantic: seq<Match>, p: Policy, id: string)
    requires Distinct(IdsOf(lexical)) && Distinct(IdsOf(semantic))
    ensures forall i, j | Has(lexical, id, i) && Has(semantic, id, j) ::
      Score(lexical, semantic, p, id)
        == p.lexicalWeight as real / (p.rankConstant + i + 1) as real
           + p.semanticWeight as real / (p.rankConstant + j + 1) as real
    ensures forall i | Has(lexical, id, i) && forall j :: !Has(semantic, id, j) ::
      Score(lexical, semantic, p, id) == p.lexicalWeight as real / (p.rankConstant + i + 1) as real
    ensures forall j | Has(semantic, id, j) && forall i :: !Has(lexical, id, i) ::
      Score(lexical, semantic, p, id) == p.semanticWeight as real / (p.rankConstant + j + 1) as real
    ensures (forall i :: !Has(lexical, id, i)) && (forall j :: !Has(semantic, id, j)) ==>
      Score(lexical, semantic, p, id) == 0.0
  {
    RankAt(lexical, id);
    RankAt(semantic, id);
    hide Rank, IdsOf, Distinct, Has;
  }

  /** Every lexical match with the id of a semantic one has the same metadata. */
  lemma AgreesIsConsistent(lexical: seq<Match>, semantic: seq<Match>)
    requires Distinct(IdsOf(lexical))
    ensures Agrees(lexical, semantic) <==> Consistent(lexical, semantic)
  {
    forall m | m in lexical
      ensures Rank(lexical, m.id) > 0 && lexical[Rank(lexical, m.id) - 1] == m
    {
      var i :| 0 <= i < |lexical| && lexical[i] == m;
      RankOf(lexical, i);
    }
    forall m: Match | Rank(lexical, m.id) > 0
      ensures lexical[Rank(lexical, m.id) - 1] in lexical && lexical[Rank(lexical, m.id) - 1].id == m.id
    {
    }
    hide Rank, IdsOf, Distinct;
  }

  // --- the ordered result --------------------------------------------------------------------

  function ByScore(t: Tally): (string, string) -> bool {
    (a: string, b: string) =>
      a in t.scores && b in t.scores
      && (t.scores[a] > t.scores[b] || (t.scores[a] == t.scores[b] && StringLe(a, b)))
  }

  lemma SortedIsTopK(t: Tally, lexical: seq<Match>, semantic: seq<Match>, p: Policy, k: nat)
    requires Tallied(t, lexical, semantic, p)
    ensures var s := Sort(t.order, ByScore(t));
      TopK(s[..Shorter(k, |s|)], lexical, semantic, p, k)
  {
    hide Rank, Sort, Listed, Chosen;
    var le := Order(lexical, semantic, p);
    var s := Sort(t.order, ByScore(t));
    forall a, b | a in t.byId && b in t.byId
      ensures ByScore(t)(a, b) == le(a, b)
    {
    }
    hide Score, Before;
    IdOrder(t.order, lexical, semantic, p);
    SortSorts(t.order, ByScore(t));
    SameElements(t.order, s);
    PermutationDistinct(t.order, s);
    forall i, j | 0 <= i < j < |s|
      ensures le(s[i], s[j])
    {
      assert s[i] in t.order && s[j] in t.order;
    }
    PrefixIsTopK(s, lexical, semantic, p, k);
  }

  /** The first `k` of all the listed ids in order are the best `k`. */
  lemma PrefixIsTopK(s: seq<string>, lexical: seq<Match>, semantic: seq<Match>, p: Policy, k: nat)
    requires Distinct(s) && Sorted(s, Order(lexical, semantic, p))
    requires forall id :: id in s <==> Listed(lexical, semantic, id)
    ensures TopK(s[..Shorter(k, |s|)], lexical, semantic, p, k)
  {
    hide Before, Listed;
    var out := s[..Shorter(k, |s|)];
    assert forall q | 0 <= q < |out| :: s[q] in out;
    forall id, o | id in s && id !in out && o in out
      ensures |out| == k && Before(lexical, semantic, p, o, id)
    {
      var i :| 0 <= i < |s| && s[i] == id;
      var j :| 0 <= j < |out| && out[j] == o;
      assert Order(lexical, semantic, p)(s[j], s[i]);
    }
  }

  method ReciprocalRankFusion(lexical: seq<Match>, semantic: seq<Match>, policy: Policy, requestedLimit: nat)
    returns (r: Result<seq<Match>, FusionError>)
    ensures r == Err(CandidateLimitExceeded) <==>
      |lexical| > policy.lexicalLimit || |semantic| > policy.semanticLimit
    ensures r == Err(DuplicateCandidate) <==>
      && |lexical| <= policy.lexicalLimit && |semantic| <= policy.semanticLimit
      && !(Distinct(IdsOf(lexical)) && Distinct(IdsOf(semantic)))
    ensures r == Err(MetadataMismatch) <==>
      && |lexical| <= policy.lexicalLimit && |semantic| <= policy.semanticLimit
      && Distinct(IdsOf(lexical)) && Distinct(IdsOf(semantic)) && !Consistent(lexical, semantic)
    ensures r.Ok? ==> FusedFrom(r.value, lexical, semantic, policy, Shorter(requestedLimit, policy.finalLimit))
  {
    hide Distinct, IdsOf, Consistent, FusedFrom, Rank, Chosen, Score;
    if |lexical| > policy.lexicalLimit || |semantic| > policy.semanticLimit {
      return Err(CandidateLimitExceeded);
    }
    var repeated := HasRepeat(IdsOf(lexical));
    if !repeated {
      repeated := HasRepeat(IdsOf(semantic));
    }
    if repeated {
      return Err(DuplicateCandidate);
    }
    var fused := FuseUnique(lexical, semantic, policy, Shorter(requestedLimit, policy.finalLimit));
    r := if fused.None? then Err(MetadataMismatch) else Ok(fused.value);
  }

  method FuseUnique(lexical: seq<Match>, semantic: seq<Match>, policy: Policy, limit: nat)
    returns (r: Option<seq<Match>>)
    requires Distinct(IdsOf(lexical)) && Distinct(IdsOf(semantic))
    ensures r.Some? <==> Consistent(lexical, semantic)
    ensures r.Some? ==> FusedFrom(r.value, lexical, semantic, policy, limit)
  {
    hide Distinct, Consistent, IdsOf, Agrees, Tallied, Listed, Chosen, Score, Rank, Before, Sort, Read;
    ReadLexical(lexical, policy);
    AgreesIsConsistent(lexical, semantic);
    var first := ReadList(EMPTY, lexical, policy.lexicalWeight, policy);
    ReadSemantic(lexical, semantic, first.value, policy);
    var second := ReadList(first.value, semantic, policy.semanticWeight, policy);
    if second == None {
      return None;
    }
    var t := second.value;
    var ordered := Sort(t.order, ByScore(t));
    SortedIsTopK(t, lexical, semantic, policy, limit);
    ordered := ordered[..Shorter(limit, |ordered|)];
    OrderedStored(t, ordered, lexical, semantic, policy, limit);
    var chosen := seq(|ordered|, i requires 0 <= i < |ordered| => t.byId[ordered[i]]);
    ChosenIds(lexical, semantic, ordered, chosen);
    r := Some(chosen);
  }

  /** `items` are the stored matches of the best ids, in order. */
  ghost predicate FusedFrom(items: seq<Match>, lexical: seq<Match>, semantic: seq<Match>, p: Policy, limit: nat) {
    && TopK(IdsOf(items), lexical, semantic, p, limit)
    && forall m | m in items :: Listed(lexical, semantic, m.id) && m == Chosen(lexical, semantic, m.id)
  }

  lemma OrderedStored(t: Tally, ordered: seq<string>, lexical: seq<Match>, semantic: seq<Match>, p: Policy, k: nat)
    requires Tallied(t, lexical, semantic, p) && TopK(ordered, lexical, semantic, p, k)
    ensures forall i | 0 <= i < |ordered| ::
      && Listed(lexical, semantic, ordered[i]) && ordered[i] in t.byId
      && t.byId[ordered[i]] == Chosen(lexical, semantic, ordered[i])
  {
    hide Listed, Chosen, Score, Before, Rank;
    assert forall i | 0 <= i < |ordered| :: ordered[i] in ordered;
  }

  lemma ChosenIds(lexical: seq<Match>, semantic: seq<Match>, ids: seq<string>, items: seq<Match>)
    requires |items| == |ids|
    requires forall i | 0 <= i < |ids| ::
      Listed(lexical, semantic, ids[i]) && items[i] == Chosen(lexical, semantic, ids[i])
    ensures IdsOf(items) == ids
    ensures forall m | m in items :: Listed(lexical, semantic, m.id) && m == Chosen(lexical, semantic, m.id)
  {
    forall i | 0 <= i < |ids|
      ensures items[i].id == ids[i]
    {
    }
    hide Rank, Listed, Chosen;
  }

  /** The set-size comparison that finds a repeated id. */
  method HasRepeat(ids: seq<string>) returns (r: bool)
    ensures r <==> !Distinct(ids)
  {
    var seen: set<string> := {};
    for i := 0 to |ids|
      invariant forall x :: x in seen <==> x in ids[..i]
      invariant Distinct(ids[..i])
    {
      if ids[i] in seen {
        return true;
      }
      assert ids[..i + 1] == ids[..i] + [ids[i]];
      seen := seen + {ids[i]};
    }
    assert ids[..|ids|] == ids;
    r := false;
  }

  // --- laws ----------------------------------------------------------------------------------

  /** A smaller limit gives a prefix. */
  lemma SmallerLimit(big: seq<string>, small: seq<string>, lexical: seq<Match>, semantic: seq<Match>,
                     p: Policy, k: nat, l: nat)
    requires TopK(big, lexical, semantic, p, k) && TopK(small, lexical, semantic, p, l) && l <= k
    ensures small == big[..Shorter(l, |big|)]
  {
    var cut := big[..Shorter(l, |big|)];
    hide Before, Listed;
    assert forall q | 0 <= q < |cut| :: big[q] in cut && big[q] in big;
    forall id, o | Listed(lexical, semantic, id) && id !in cut && o in cut
      ensures |cut| == l && Before(lexical, semantic, p, o, id)
    {
      var j :| 0 <= j < |cut| && cut[j] == o;
      if id in big {
        var i :| 0 <= i < |big| && big[i] == id;
        assert Order(lexical, semantic, p)(big[j], big[i]);
      }
    }
    CutShort(big, cut, lexical, semantic, p, k, l);
    TopKUnique(small, cut, lexical, semantic, p, l);
  }

  lemma CutShort(big: seq<string>, cut: seq<string>, lexical: seq<Match>, semantic: seq<Match>,
                 p: Policy, k: nat, l: nat)
    requires TopK(big, lexical, semantic, p, k) && l <= k && cut == big[..Shorter(l, |big|)]
    requires forall id, o | Listed(lexical, semantic, id) && id !in cut && o in cut ::
      Before(lexical, semantic, p, o, id)
    ensures TopK(cut, lexical, semantic, p, l)
  {
    hide Before, Listed;
    assert forall o | o in cut :: o in big;
    assert |big| <= l ==> cut == big;
  }

  function Swapped(p: Policy): Policy {
    Policy(p.semanticLimit, p.lexicalLimit, p.finalLimit, p.semanticWeight, p.lexicalWeight, p.rankConstant)
  }

  /** Swapping the lists together with their weights and limits gives the same ids in the same order. */
  lemma SwapLists(out: seq<string>, lexical: seq<Match>, semantic: seq<Match>, p: Policy, k: nat)
    ensures TopK(out, lexical, semantic, p, k) <==> TopK(out, semantic, lexical, Swapped(p), k)
  {
    forall id
      ensures Score(lexical, semantic, p, id) == Score(semantic, lexical, Swapped(p), id)
      ensures Listed(lexical, semantic, id) <==> Listed(semantic, lexical, id)
    {
      assert Share(Rank(lexical, id), p.lexicalWeight, p) == Share(Rank(lexical, id), p.lexicalWeight, Swapped(p));
    }
    hide Score, Listed;
    forall a, b
      ensures Before(lexical, semantic, p, a, b) <==> Before(semantic, lexical, Swapped(p), a, b)
    {
    }
    hide Before;
    assert forall a, b :: Order(lexical, semantic, p)(a, b) <==> Order(semantic, lexical, Swapped(p))(a, b);
  }

  /** `x` is a rank at least as good as `y`; zero means the id is missing from the list. */
  predicate NoWorse(x: nat, y: nat) {
    y == 0 || 0 < x <= y
  }

  lemma ShareMonotone(x: nat, y: nat, weight: Positive, p: Policy)
    requires NoWorse(x, y)
    ensures Share(x, weight, p) >= Share(y, weight, p)
    ensures x != y ==> Share(x, weight, p) > Share(y, weight, p)
  {
    var w := weight as real;
    var c := p.rankConstant as real;
    if y == 0 {
    } else {
      Quotients(w, (p.rankConstant + x) as real, (p.rankConstant + y) as real);
    }
  }

  lemma Quotients(w: real, x: real, y: real)
    requires w > 0.0 && 0.0 < x <= y
    ensures w / x >= w / y && (x < y ==> w / x > w / y)
  {
    var u, v := w / x, w / y;
    assert u * x == w && v * y == w;
    assert u > 0.0;
    assert u * y >= u * x && (x < y ==> u * y > u * x);
    Cancel(u, v, y);
  }

  lemma Cancel(u: real, v: real, y: real)
    requires y > 0.0 && u * y >= v * y
    ensures u >= v && (u * y > v * y ==> u > v)
  {
  }

  /** An id ranked no worse in both lists and better in one comes first. */
  lemma Dominance(out: seq<string>, lexical: seq<Match>, semantic: seq<Match>, p: Policy, k: nat,
                  a: string, b: string)
    requires TopK(out, lexical, semantic, p, k) && b in out && Listed(lexical, semantic, a)
    requires NoWorse(Rank(lexical, a), Rank(lexical, b)) && NoWorse(Rank(semantic, a), Rank(semantic, b))
    requires Rank(lexical, a) != Rank(lexical, b) || Rank(semantic, a) != Rank(semantic, b)
    ensures exists i, j :: 0 <= i < j < |out| && out[i] == a && out[j] == b
  {
    hide Listed, Rank, Share;
    ShareMonotone(Rank(lexical, a), Rank(lexical, b), p.lexicalWeight, p);
    ShareMonotone(Rank(semantic, a), Rank(semantic, b), p.semanticWeight, p);
    assert !Before(lexical, semantic, p, b, a);
    FirstOfTwo(out, lexical, semantic, p, k, a, b);
  }

  lemma FirstOfTwo(out: seq<string>, lexical: seq<Match>, semantic: seq<Match>, p: Policy, k: nat,
                   a: string, b: string)
    requires TopK(out, lexical, semantic, p, k) && b in out && Listed(lexical, semantic, a)
    requires !Before(lexical, semantic, p, b, a) && a != b
    ensures exists i, j :: 0 <= i < j < |out| && out[i] == a && out[j] == b
  {
    hide Before, Listed;
    assert forall x, y | 0 <= x < y < |out| :: Order(lexical, semantic, p)(out[x], out[y]);
    var j :| 0 <= j < |out| && out[j] == b;
    assert a in out;
    var i :| 0 <= i < |out| && out[i] == a;
  }

  /** With one list empty, fusion truncates the other. */
  lemma OneListEmpty(out: seq<string>, items: seq<Match>, p: Policy, k: nat)
    requires Distinct(IdsOf(items)) && (TopK(out, items, [], p, k) || TopK(out, [], items, p, k))
    ensures out == IdsOf(items)[..Shorter(k, |items|)]
  {
    if TopK(out, items, [], p, k) {
      OnlyLexical(out, items, p, k);
    } else {
      SwapLists(out, [], items, p, k);
      OnlyLexical(out, items, Swapped(p), k);
    }
  }

  lemma OnlyLexical(out: seq<string>, items: seq<Match>, p: Policy, k: nat)
    requires Distinct(IdsOf(items)) && TopK(out, items, [], p, k)
    ensures out == IdsOf(items)[..Shorter(k, |items|)]
  {
    var ids := IdsOf(items);
    forall i, j | 0 <= i < j < |ids|
      ensures Order(items, [], p)(ids[i], ids[j])
    {
      RankOf(items, i);
      RankOf(items, j);
      ShareMonotone(i + 1, j + 1, p.lexicalWeight, p);
    }
    forall id
      ensures id in ids <==> Listed(items, [], id)
    {
      RankZero(items, id);
      if id in ids {
        var i :| 0 <= i < |ids| && ids[i] == id;
        assert items[i] in items;
      }
      if Rank(items, id) > 0 {
        assert ids[Rank(items, id) - 1] == id;
      }
    }
    PrefixIsTopK(ids, items, [], p, k);
    TopKUnique(out, ids[..Shorter(k, |ids|)], items, [], p, k);
  }
}
