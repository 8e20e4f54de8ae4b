/** The four retrieval numbers read off the ranked list and the relevant items directly: which
    positions hold a relevant id, which of them is the first, and what each grade is worth there. */
module RetrievalNumbers {
  import opened Ordering
  import opened Metrics

  // --- what is read off the inputs -----------------------------------------------------------

  /** Item `k` is the last one with this id. */
  ghost predicate IsLast(relevant: seq<RelevantItem>, id: string, k: nat) {
    k < |relevant| && relevant[k].id == id && forall j | k < j < |relevant| :: relevant[j].id != id
  }

  /** The grade of the last item with this id, and zero when there is none. */
  ghost function GradeFor(relevant: seq<RelevantItem>, id: string): nat {
    if exists k: nat :: IsLast(relevant, id, k) then
      var k: nat :| IsLast(relevant, id, k);
      relevant[k].grade
    else 0
  }

  function RelevantIds(relevant: seq<RelevantItem>): set<string> {
    set item | item in relevant :: item.id
  }

  /** The positions among the first `limit` that hold a relevant id. */
  function HitPlaces(retrieved: seq<string>, relevant: seq<RelevantItem>, limit: nat): set<nat> {
    set k: nat | k < |retrieved| && k < limit && retrieved[k] in RelevantIds(relevant)
  }

  predicate FirstHit(retrieved: seq<string>, relevant: seq<RelevantItem>, limit: nat, k: nat) {
    k in HitPlaces(retrieved, relevant, limit) && forall j | 0 <= j < k :: j !in HitPlaces(retrieved, relevant, limit)
  }

  /** What a grade is worth: two to its power, less one. */
  function Worth(grade: nat): real {
    if grade == 0 then 0.0 else if grade == 1 then 1.0 else if grade == 2 then 3.0 else 7.0
  }

  /** The discounted worth of the first `n` positions. */
  ghost function GainTo(retrieved: seq<string>, relevant: seq<RelevantItem>, w: Discount, n: nat): real
    requires n <= |retrieved|
  {
    if n == 0 then 0.0
    else GainTo(retrieved, relevant, w, n - 1) + Worth(GradeFor(relevant, retrieved[n - 1])) * w(n)
  }

  /** `best` lists the grades of the relevant ids, one for each, from the highest down. */
  ghost predicate BestOrder(relevant: seq<RelevantItem>, best: seq<nat>) {
    && Downward(best) && |best| == |RelevantIds(relevant)|
    && forall g :: multiset(best)[g] == |set id | id in RelevantIds(relevant) && GradeFor(relevant, id) == g|
  }

  function WorthTo(best: seq<nat>, w: Discount, n: nat): real
    requires n <= |best|
  {
    if n == 0 then 0.0 else WorthTo(best, w, n - 1) + Worth(best[n - 1]) * w(n)
  }

  function Least(a: nat, b: nat): nat {
    if a < b then a else b
  }

  // --- the dictionary ------------------------------------------------------------------------

  lemma {:induction false} GradeOfPut(d: seq<RelevantItem>, item: RelevantItem, id: string)
    ensures GradeOf(Put(d, item), id) == if id == item.id then item.grade else GradeOf(d, id)
  {
    if d != [] && d[0].id != item.id {
      GradeOfPut(d[1..], item, id);
    } else if d != [] {
      assert Put(d, item)[1..] == d[1..];
    }
  }

  lemma LastGrade(relevant: seq<RelevantItem>, id: string, k: nat)
    requires IsLast(relevant, id, k)
    ensures GradeFor(relevant, id) == relevant[k].grade
  {
  }

  lemma GradeForLast(relevant: seq<RelevantItem>, id: string)
    requires relevant != []
    ensures var last := relevant[|relevant| - 1];
      GradeFor(relevant, id) == if last.id == id then last.grade else GradeFor(relevant[..|relevant| - 1], id)
  {
    var n := |relevant| - 1;
    if relevant[n].id == id {
      LastGrade(relevant, id, n);
    } else {
      forall k: nat
        ensures IsLast(relevant, id, k) <==> IsLast(relevant[..n], id, k)
      {
      }
    }
  }

  lemma {:induction false} DictionaryGrade(relevant: seq<RelevantItem>, id: string)
    ensures GradeOf(Grades(relevant), id) == GradeFor(relevant, id)
  {
    if relevant != [] {
      var n := |relevant| - 1;
      DictionaryGrade(relevant[..n], id);
      GradeOfPut(Grades(relevant[..n]), relevant[n], id);
      GradeForLast(relevant, id);
    }
  }

  lemma {:induction false} PutIds(d: seq<RelevantItem>, item: RelevantItem)
    ensures RelevantIds(Put(d, item)) == RelevantIds(d) + {item.id}
  {
    hide RelevantIds;
    IdsCons(item, []);
    if d == [] {
      assert [item] + [] == [item];
    } else {
      assert d == [d[0]] + d[1..];
      IdsCons(d[0], d[1..]);
      if d[0].id == item.id {
        IdsCons(item, d[1..]);
      } else {
        PutIds(d[1..], item);
        IdsCons(d[0], Put(d[1..], item));
      }
    }
  }

  lemma IdsCons(first: RelevantItem, rest: seq<RelevantItem>)
    ensures RelevantIds([first] + rest) == {first.id} + RelevantIds(rest)
    ensures RelevantIds([]) == {}
  {
  }

  lemma {:induction false} DictionaryIds(relevant: seq<RelevantItem>)
    ensures RelevantIds(Grades(relevant)) == RelevantIds(relevant)
  {
    if relevant != [] {
      var n := |relevant| - 1;
      DictionaryIds(relevant[..n]);
      PutIds(Grades(relevant[..n]), relevant[n]);
      assert relevant == relevant[..n] + [relevant[n]];
    }
  }

  lemma {:induction false} KeysCount(d: seq<RelevantItem>)
    requires DistinctKeys(d)
    ensures |RelevantIds(d)| == |d|
  {
    if d != [] {
      KeysCount(d[1..]);
      assert d == [d[0]] + d[1..];
      assert RelevantIds(d) == {d[0].id} + RelevantIds(d[1..]);
    }
  }

  /** A relevant id has a positive grade, and no other id has. */
  lemma GradeMeansRelevant(relevant: seq<RelevantItem>, id: string)
    requires Graded(relevant)
    ensures GradeFor(relevant, id) > 0 <==> id in RelevantIds(relevant)
    ensures GradeFor(relevant, id) <= 3
  {
    if id in RelevantIds(relevant) {
      var k := LastOf(relevant, id);
      LastGrade(relevant, id, k);
      assert relevant[k] in relevant;
    } else {
      forall k: nat
        ensures !IsLast(relevant, id, k)
      {
        if k < |relevant| {
          assert relevant[k] in relevant;
        }
      }
    }
  }

  lemma {:induction false} LastOf(relevant: seq<RelevantItem>, id: string) returns (k: nat)
    requires id in RelevantIds(relevant)
    ensures IsLast(relevant, id, k)
  {
    var n := |relevant| - 1;
    if relevant[n].id == id {
      k := n;
    } else {
      assert relevant == relevant[..n] + [relevant[n]];
      k := LastOf(relevant[..n], id);
    }
  }

  // --- what was observed ---------------------------------------------------------------------

  lemma {:induction false} ObservedAt(d: seq<RelevantItem>, ids: seq<string>, i: nat)
    requires i < |ids|
    ensures |Observed(d, ids)| == |ids| && Observed(d, ids)[i] == GradeOf(d, ids[i])
  {
    ObservedLength(d, ids);
    if i > 0 {
      ObservedAt(d, ids[1..], i - 1);
    }
  }

  /** Each observed grade is that of the id at its position. */
  lemma ObservedIs(retrieved: seq<string>, relevant: seq<RelevantItem>, limit: nat)
    ensures var seen := Observed(Grades(relevant), Take(retrieved, limit));
      && |seen| == Least(limit, |retrieved|)
      && forall i | 0 <= i < |seen| :: seen[i] == GradeFor(relevant, retrieved[i])
  {
    var d, ids := Grades(relevant), Take(retrieved, limit);
    ObservedLength(d, ids);
    forall i | 0 <= i < |ids|
      ensures Observed(d, ids)[i] == GradeFor(relevant, retrieved[i])
    {
      ObservedAt(d, ids, i);
      DictionaryGrade(relevant, retrieved[i]);
    }
  }

  function Positive(grades: seq<nat>, start: nat): set<nat> {
    set k: nat | k < |grades| && grades[k] > 0 :: start + k
  }

  lemma {:induction false} RelevantCount(grades: seq<nat>, start: nat)
    ensures Relevant(grades) == |Positive(grades, start)|
  {
    if grades != [] {
      RelevantCount(grades[1..], start + 1);
      PositiveTail(grades, start);
    }
  }

  lemma PositiveTail(grades: seq<nat>, start: nat)
    requires grades != []
    ensures var rest := Positive(grades[1..], start + 1);
      start !in rest && Positive(grades, start) == if grades[0] > 0 then {start} + rest else rest
  {
    var rest := Positive(grades[1..], start + 1);
    forall k: nat | k < |grades| && grades[k] > 0
      ensures start + k in if grades[0] > 0 then {start} + rest else rest
    {
      if k > 0 {
        assert grades[1..][k - 1] == grades[k] && start + k == start + 1 + (k - 1);
      }
    }
    forall k: nat | k < |grades[1..]| && grades[1..][k] > 0
      ensures start + 1 + k in Positive(grades, start)
    {
      assert grades[k + 1] == grades[1..][k] && start + 1 + k == start + (k + 1);
    }
  }

  /** The positive observed grades stand at the hits. */
  lemma HitsArePositive(retrieved: seq<string>, relevant: seq<RelevantItem>, limit: nat)
    requires Graded(relevant)
    ensures Positive(Observed(Grades(relevant), Take(retrieved, limit)), 0) == HitPlaces(retrieved, relevant, limit)
  {
    ObservedIs(retrieved, relevant, limit);
    forall i | 0 <= i < |retrieved|
      ensures GradeFor(relevant, retrieved[i]) > 0 <==> retrieved[i] in RelevantIds(relevant)
    {
      GradeMeansRelevant(relevant, retrieved[i]);
    }
    hide Observed, Grades, GradeFor, RelevantIds, Graded;
  }

  lemma {:induction false} FirstRelevantIs(grades: seq<nat>, rank: nat, k: nat)
    requires k <= |grades| && forall j | 0 <= j < k :: grades[j] == 0
    ensures k == |grades| ==> FirstRelevant(grades, rank) == 0
    ensures k < |grades| && grades[k] > 0 ==> FirstRelevant(grades, rank) == rank + k
  {
    if k > 0 {
      assert forall j | 0 <= j < k - 1 :: grades[1..][j] == grades[j + 1];
      FirstRelevantIs(grades[1..], rank + 1, k - 1);
    }
  }

  // --- the numbers ---------------------------------------------------------------------------

  lemma Multiplied(a: real, b: real)
    requires b != 0.0
    ensures a / b * b == a
  {
  }

  lemma PrecisionQuotients(retrieved: seq<string>, relevant: seq<RelevantItem>, limit: nat, w: Discount)
    requires limit >= 1
    ensures var d := Grades(relevant);
      var hits := Relevant(Observed(d, Take(retrieved, limit))) as real;
      var s := RetrievalMetrics(retrieved, relevant, limit, w);
      && s.precision == hits / limit as real
      && s.recall == if d == [] then 0.0 else hits / |d| as real
  {
    hide Grades, Observed, Take, Relevant, FirstRelevant, Ideal, Dcg;
  }

  lemma RankQuotient(retrieved: seq<string>, relevant: seq<RelevantItem>, limit: nat, w: Discount)
    requires limit >= 1
    ensures var first := FirstRelevant(Observed(Grades(relevant), Take(retrieved, limit)), 1);
      RetrievalMetrics(retrieved, relevant, limit, w).mrr == if first == 0 then 0.0 else 1.0 / first as real
  {
    hide Grades, Observed, Take, Relevant, FirstRelevant, Ideal, Dcg;
  }

  lemma GainQuotient(retrieved: seq<string>, relevant: seq<RelevantItem>, limit: nat, w: Discount)
    requires limit >= 1
    ensures var d := Grades(relevant);
      var ideal := Dcg(Ideal(d, limit), w, 1);
      RetrievalMetrics(retrieved, relevant, limit, w).ndcg
        == if ideal == 0.0 then 0.0 else Dcg(Observed(d, Take(retrieved, limit)), w, 1) / ideal
  {
    hide Grades, Observed, Take, Relevant, FirstRelevant, Ideal, Dcg;
  }

  lemma HitsCounted(retrieved: seq<string>, relevant: seq<RelevantItem>, limit: nat)
    requires Graded(relevant)
    ensures Relevant(Observed(Grades(relevant), Take(retrieved, limit))) == |HitPlaces(retrieved, relevant, limit)|
    ensures relevant == [] ==> |HitPlaces(retrieved, relevant, limit)| == 0
  {
    HitsArePositive(retrieved, relevant, limit);
    RelevantCount(Observed(Grades(relevant), Take(retrieved, limit)), 0);
    if relevant == [] {
      assert HitPlaces(retrieved, relevant, limit) == {};
    }
  }

  lemma KeysAreIds(relevant: seq<RelevantItem>)
    ensures |Grades(relevant)| == |RelevantIds(relevant)| && (Grades(relevant) == [] <==> relevant == [])
  {
    GradesDistinct(relevant);
    KeysCount(Grades(relevant));
    DictionaryIds(relevant);
  }

  /** Precision counts the hits over the limit, recall over the relevant ids. */
  lemma PrecisionAndRecall(retrieved: seq<string>, relevant: seq<RelevantItem>, limit: nat, w: Discount)
    requires limit >= 1 && Graded(relevant)
    ensures var s := RetrievalMetrics(retrieved, relevant, limit, w);
      var hits := |HitPlaces(retrieved, relevant, limit)| as real;
      && s.precision * limit as real == hits
      && s.recall * |RelevantIds(relevant)| as real == hits
      && (relevant == [] ==> s.recall == 0.0)
  {
    hide *;
    PrecisionQuotients(retrieved, relevant, limit, w);
    HitsCounted(retrieved, relevant, limit);
    KeysAreIds(relevant);
    var hits := |HitPlaces(retrieved, relevant, limit)| as real;
    Multiplied(hits, limit as real);
    if relevant != [] {
      Multiplied(hits, |RelevantIds(relevant)| as real);
    }
  }

  /** The reciprocal rank is that of the first hit, and zero without one. */
  lemma ReciprocalRank(retrieved: seq<string>, relevant: seq<RelevantItem>, limit: nat, w: Discount)
    requires limit >= 1 && Graded(relevant)
    ensures var mrr := RetrievalMetrics(retrieved, relevant, limit, w).mrr;
      && (HitPlaces(retrieved, relevant, limit) == {} ==> mrr == 0.0)
      && (forall k: nat | FirstHit(retrieved, relevant, limit, k) :: mrr == 1.0 / (k + 1) as real)
  {
    hide *;
    RankQuotient(retrieved, relevant, limit, w);
    FirstRankIs(retrieved, relevant, limit);
  }

  /** The rank that is searched for is that of the first hit. */
  lemma FirstRankIs(retrieved: seq<string>, relevant: seq<RelevantItem>, limit: nat)
    requires Graded(relevant)
    ensures var first := FirstRelevant(Observed(Grades(relevant), Take(retrieved, limit)), 1);
      && (HitPlaces(retrieved, relevant, limit) == {} ==> first == 0)
      && (forall k: nat | FirstHit(retrieved, relevant, limit, k) :: first == k + 1)
  {
    var seen := Observed(Grades(relevant), Take(retrieved, limit));
    var hits := HitPlaces(retrieved, relevant, limit);
    HitsArePositive(retrieved, relevant, limit);
    assert forall k: nat :: k in hits <==> k < |seen| && seen[k] > 0;
    assert forall k: nat :: FirstHit(retrieved, relevant, limit, k) <==> k in hits && forall j | 0 <= j < k :: j !in hits;
    hide *;
    if hits == {} {
      assert forall k: nat | k < |seen| :: k !in hits;
      FirstRelevantIs(seen, 1, |seen|);
    }
    forall k: nat | FirstHit(retrieved, relevant, limit, k)
      ensures FirstRelevant(seen, 1) == 1 + k
    {
      assert forall j: nat | j < k :: j !in hits;
      FirstRelevantIs(seen, 1, k);
    }
  }

  lemma WorthIsGain(grade: nat)
    requires grade <= 3
    ensures Gain(grade) == Worth(grade)
  {
    assert Pow2(3) == 2 * Pow2(2) && Pow2(2) == 2 * Pow2(1) && Pow2(1) == 2 * Pow2(0);
  }

  lemma {:induction false} GainIs(retrieved: seq<string>, relevant: seq<RelevantItem>, seen: seq<nat>, w: Discount, n: nat)
    requires Graded(relevant) && n <= |seen| <= |retrieved|
    requires forall i | 0 <= i < |seen| :: seen[i] == GradeFor(relevant, retrieved[i])
    ensures Dcg(seen[..n], w, 1) == GainTo(retrieved, relevant, w, n)
  {
    if n > 0 {
      GainIs(retrieved, relevant, seen, w, n - 1);
      DcgSnoc(seen, n - 1, w, 1);
      GradeMeansRelevant(relevant, retrieved[n - 1]);
      WorthIsGain(seen[n - 1]);
    }
  }

  lemma {:induction false} WorthIs(best: seq<nat>, w: Discount, n: nat)
    requires n <= |best| && forall i | 0 <= i < |best| :: best[i] <= 3
    ensures Dcg(best[..n], w, 1) == WorthTo(best, w, n)
  {
    if n > 0 {
      WorthIs(best, w, n - 1);
      DcgSnoc(best, n - 1, w, 1);
      WorthIsGain(best[n - 1]);
    }
  }

  function WithGrade(d: seq<RelevantItem>, g: nat): set<string> {
    set id | id in RelevantIds(d) && GradeOf(d, id) == g
  }

  lemma {:induction false} GradesCounted(d: seq<RelevantItem>, g: nat)
    requires DistinctKeys(d)
    ensures multiset(Values(d))[g] == |WithGrade(d, g)|
  {
    if d == [] {
      NoneWithGrade(g);
    } else {
      assert DistinctKeys(d[1..]);
      assert Values(d) == [d[0].grade] + Values(d[1..]);
      hide *;
      GradesCounted(d[1..], g);
      WithGradeTail(d, g);
    }
  }

  lemma NoneWithGrade(g: nat)
    ensures WithGrade([], g) == {}
  {
  }

  lemma WithGradeTail(d: seq<RelevantItem>, g: nat)
    requires DistinctKeys(d) && d != []
    ensures var rest := WithGrade(d[1..], g);
      d[0].id !in rest && WithGrade(d, g) == if d[0].grade == g then {d[0].id} + rest else rest
  {
    assert d == [d[0]] + d[1..];
    assert RelevantIds(d) == {d[0].id} + RelevantIds(d[1..]);
    forall id | id in RelevantIds(d[1..])
      ensures id != d[0].id
    {
      var item :| item in d[1..] && item.id == id;
      var k :| 0 <= k < |d[1..]| && d[1..][k] == item;
      assert d[k + 1].id == id;
    }
  }

  /** The grades of the dictionary, sorted downward, are a best order. */
  lemma SortedIsBest(relevant: seq<RelevantItem>)
    requires Graded(relevant)
    ensures var best := Sort(Values(Grades(relevant)), (a: nat, b: nat) => a >= b);
      BestOrder(relevant, best) && |best| == |Grades(relevant)| && forall i | 0 <= i < |best| :: best[i] <= 3
  {
    var d := Grades(relevant);
    var best := Sort(Values(d), (a: nat, b: nat) => a >= b);
    IdealDownward(d, 0);
    KeysAreIds(relevant);
    hide *;
    BestCounts(relevant, best);
    BestGrades(relevant, best);
    IsBestOrder(relevant, best);
  }

  lemma IsBestOrder(relevant: seq<RelevantItem>, best: seq<nat>)
    requires Downward(best) && |best| == |RelevantIds(relevant)|
    requires forall g: nat :: multiset(best)[g] == |set id | id in RelevantIds(relevant) && GradeFor(relevant, id) == g|
    ensures BestOrder(relevant, best)
  {
    hide Downward, GradeFor, RelevantIds;
  }

  lemma BestCounts(relevant: seq<RelevantItem>, best: seq<nat>)
    requires multiset(best) == multiset(Values(Grades(relevant)))
    ensures forall g: nat :: multiset(best)[g] == |set id | id in RelevantIds(relevant) && GradeFor(relevant, id) == g|
  {
    var d := Grades(relevant);
    GradesDistinct(relevant);
    DictionaryIds(relevant);
    hide Grades, GradeFor;
    forall g: nat
      ensures multiset(best)[g] == |set id | id in RelevantIds(relevant) && GradeFor(relevant, id) == g|
    {
      GradesCounted(d, g);
      forall id
        ensures GradeOf(d, id) == GradeFor(relevant, id)
      {
        DictionaryGrade(relevant, id);
      }
      assert WithGrade(d, g) == set id | id in RelevantIds(relevant) && GradeFor(relevant, id) == g;
    }
  }

  lemma BestGrades(relevant: seq<RelevantItem>, best: seq<nat>)
    requires Graded(relevant) && multiset(best) == multiset(Values(Grades(relevant)))
    ensures forall i | 0 <= i < |best| :: best[i] <= 3
  {
    var d := Grades(relevant);
    GradesDistinct(relevant);
    SameElements(best, Values(d));
    hide Grades;
    forall i | 0 <= i < |best|
      ensures best[i] <= 3
    {
      assert best[i] in Values(d);
      var k :| 0 <= k < |d| && Values(d)[k] == best[i];
      assert d[k] in d;
    }
  }

  /** nDCG is the discounted worth of the ranking over that of the best order of the grades. */
  lemma NormalisedGain(retrieved: seq<string>, relevant: seq<RelevantItem>, limit: nat, w: Discount)
    returns (best: seq<nat>)
    requires limit >= 1 && Graded(relevant) && Decreasing(w)
    ensures BestOrder(relevant, best)
    ensures RetrievalMetrics(retrieved, relevant, limit, w).ndcg * WorthTo(best, w, Least(limit, |best|))
         == GainTo(retrieved, relevant, w, Least(limit, |retrieved|))
    ensures relevant != [] ==> WorthTo(best, w, Least(limit, |best|)) > 0.0
    ensures relevant == [] ==> RetrievalMetrics(retrieved, relevant, limit, w).ndcg == 0.0
  {
    hide *;
    best := SumsAre(retrieved, relevant, limit, w);
    GainQuotient(retrieved, relevant, limit, w);
    Ratio(RetrievalMetrics(retrieved, relevant, limit, w).ndcg, GainTo(retrieved, relevant, w, Least(limit, |retrieved|)),
          WorthTo(best, w, Least(limit, |best|)));
  }

  /** Both discounted sums, position by position. */
  lemma SumsAre(retrieved: seq<string>, relevant: seq<RelevantItem>, limit: nat, w: Discount) returns (best: seq<nat>)
    requires limit >= 1 && Graded(relevant) && Decreasing(w)
    ensures BestOrder(relevant, best) && Least(limit, |best|) <= |best| && Least(limit, |retrieved|) <= |retrieved|
    ensures Dcg(Ideal(Grades(relevant), limit), w, 1) == WorthTo(best, w, Least(limit, |best|))
    ensures Dcg(Observed(Grades(relevant), Take(retrieved, limit)), w, 1)
         == GainTo(retrieved, relevant, w, Least(limit, |retrieved|))
    ensures relevant != [] ==> WorthTo(best, w, Least(limit, |best|)) > 0.0
    ensures relevant == [] ==>
      WorthTo(best, w, Least(limit, |best|)) == 0.0 && GainTo(retrieved, relevant, w, Least(limit, |retrieved|)) == 0.0
  {
    best := BestOf(relevant, limit, w);
    hide *;
    var seen := Observed(Grades(relevant), Take(retrieved, limit));
    ObservedIs(retrieved, relevant, limit);
    assert seen == seen[..|seen|];
    ShorterRanking(limit, |retrieved|);
    GainIs(retrieved, relevant, seen, w, |seen|);
    if relevant == [] {
      NothingGained(retrieved, relevant, w, |seen|);
    }
  }

  lemma BestOf(relevant: seq<RelevantItem>, limit: nat, w: Discount) returns (best: seq<nat>)
    requires limit >= 1 && Graded(relevant) && Decreasing(w)
    ensures BestOrder(relevant, best) && Least(limit, |best|) <= |best|
    ensures Dcg(Ideal(Grades(relevant), limit), w, 1) == WorthTo(best, w, Least(limit, |best|))
    ensures relevant != [] ==> WorthTo(best, w, Least(limit, |best|)) > 0.0
    ensures relevant == [] ==> WorthTo(best, w, Least(limit, |best|)) == 0.0
  {
    best := Sort(Values(Grades(relevant)), (a: nat, b: nat) => a >= b);
    hide *;
    SortedIsBest(relevant);
    IdealIs(relevant, limit);
    WorthIs(best, w, Least(limit, |best|));
    if relevant == [] {
      NothingWorth(relevant, best, w, Least(limit, |best|));
    } else {
      BestIsWorth(relevant, limit, w);
    }
  }

  lemma ShorterRanking(limit: nat, n: nat)
    ensures Least(limit, n) <= n && Least(limit, n) <= limit
  {
  }

  lemma IdealIs(relevant: seq<RelevantItem>, limit: nat)
    ensures var best := Sort(Values(Grades(relevant)), (a: nat, b: nat) => a >= b);
      Least(limit, |best|) <= |best| && Ideal(Grades(relevant), limit) == best[..Least(limit, |best|)]
  {
    hide Sort, Grades;
  }

  lemma NothingWorth(relevant: seq<RelevantItem>, best: seq<nat>, w: Discount, n: nat)
    requires relevant == [] && BestOrder(relevant, best) && n <= |best|
    ensures WorthTo(best, w, n) == 0.0
  {
    assert RelevantIds(relevant) == {};
  }

  lemma Ratio(ndcg: real, gained: real, ideal: real)
    requires ndcg == (if ideal == 0.0 then 0.0 else gained / ideal) && (ideal == 0.0 ==> gained == 0.0)
    ensures ndcg * ideal == gained
  {
  }

  lemma BestIsWorth(relevant: seq<RelevantItem>, limit: nat, w: Discount)
    requires limit >= 1 && Graded(relevant) && Decreasing(w) && relevant != []
    ensures Dcg(Ideal(Grades(relevant), limit), w, 1) > 0.0
  {
    var d := Grades(relevant);
    GradesDistinct(relevant);
    IdealPositive(d, limit);
    var ideal := Ideal(d, limit);
    assert |ideal| > 0 && ideal[0] > 0;
    DcgPositive(ideal, w, 1);
  }

  lemma {:induction false} NothingGained(retrieved: seq<string>, relevant: seq<RelevantItem>, w: Discount, n: nat)
    requires n <= |retrieved| && relevant == []
    ensures GainTo(retrieved, relevant, w, n) == 0.0
  {
    if n > 0 {
      NothingGained(retrieved, relevant, w, n - 1);
      NoGrade(retrieved[n - 1]);
    }
  }

  lemma NoGrade(id: string)
    ensures GradeFor([], id) == 0
  {
  }
}
