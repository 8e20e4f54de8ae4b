/** Choosing the semantic abstention threshold. The code searches a finite list of
    candidates; the theorems compare its answer with every real threshold in [0, 1]. */
module Calibration {
  import opened Wrappers
  import opened Ordering
  import opened Metrics

  datatype ScoredResult = ScoredResult(id: string, score: real, authorizationViolation: bool,
                                       forbidden: bool, crossCustomer: bool)
  datatype Case = Case(limit: nat, expectedEmpty: bool, relevant: seq<RelevantItem>,
                       results: seq<ScoredResult>)
  datatype Gates = Gates(precision: real, recall: real, mrr: real, ndcg: real, expectedEmpty: real)
  datatype Selection = Selection(threshold: real, candidates: seq<real>, metrics: Scores)
  datatype CalibrationError = NoObservations | ZeroGate | NoThreshold

  /** What validation of an observation guarantees. */
  ghost predicate ValidCase(c: Case) {
    && 1 <= c.limit <= 5 && Graded(c.relevant)
    && (forall r | r in c.results :: 0.0 <= r.score <= 1.0)
    && forall i, j | 0 <= i < j < |c.results| :: c.results[i].id != c.results[j].id
  }

  /** `math.nextafter(x, 1.0)`: something above `x` that is still at most one. */
  ghost predicate NextAfter(next: real -> real) {
    forall x | 0.0 <= x < 1.0 :: x < next(x) <= 1.0
  }

  // --- one threshold -------------------------------------------------------------------------

  predicate Insecure(r: ScoredResult) {
    r.authorizationViolation || r.forbidden || r.crossCustomer
  }

  function Retained(results: seq<ScoredResult>, t: real): seq<ScoredResult> {
    if results == [] then []
    else (if results[0].score >= t then [results[0]] else []) + Retained(results[1..], t)
  }

  function Ids(results: seq<ScoredResult>): (r: seq<string>)
    ensures |r| == |results| && forall i | 0 <= i < |r| :: r[i] == results[i].id
  {
    seq(|results|, i requires 0 <= i < |results| => results[i].id)
  }

  predicate Unsafe(cases: seq<Case>, t: real) {
    cases != []
    && (Unsafe(cases[..|cases| - 1], t)
        || exists r | r in Retained(cases[|cases| - 1].results, t) :: Insecure(r))
  }

  /** For each case that must stay empty, one if it does and zero otherwise. */
  function EmptyScores(cases: seq<Case>, t: real): seq<real> {
    if cases == [] then []
    else
      var c := cases[|cases| - 1];
      EmptyScores(cases[..|cases| - 1], t)
        + if c.expectedEmpty then [if Retained(c.results, t) == [] then 1.0 else 0.0] else []
  }

  ghost predicate ValidCases(cases: seq<Case>) {
    forall c | c in cases :: ValidCase(c)
  }

  function CaseMetrics(c: Case, t: real, w: Discount): Scores
    requires c.limit >= 1
  {
    RetrievalMetrics(Ids(Retained(c.results, t)), c.relevant, c.limit, w)
  }

  /** The metrics of each case that expects an answer. */
  function Quality(cases: seq<Case>, t: real, w: Discount): seq<Scores>
    requires forall c | c in cases :: c.limit >= 1
  {
    if cases == [] then []
    else
      var c := cases[|cases| - 1];
      assert c in cases;
      Quality(cases[..|cases| - 1], t, w) + if c.expectedEmpty then [] else [CaseMetrics(c, t, w)]
  }

  function Sum(values: seq<real>): real {
    if values == [] then 0.0 else Sum(values[..|values| - 1]) + values[|values| - 1]
  }

  function MeanOf(values: seq<real>, whenEmpty: real): real {
    if values == [] then whenEmpty else Sum(values) / |values| as real
  }

  function Column(quality: seq<Scores>, f: Scores -> real): (r: seq<real>)
    ensures |r| == |quality|
  {
    seq(|quality|, i requires 0 <= i < |quality| => f(quality[i]))
  }

  function Mean(quality: seq<Scores>, f: Scores -> real): real {
    MeanOf(Column(quality, f), 0.0)
  }

  function PrecisionOf(s: Scores): real { s.precision }

  function RecallOf(s: Scores): real { s.recall }

  function MrrOf(s: Scores): real { s.mrr }

  function NdcgOf(s: Scores): real { s.ndcg }

  function Means(quality: seq<Scores>): Scores {
    Scores(Mean(quality, PrecisionOf), Mean(quality, RecallOf), Mean(quality, MrrOf), Mean(quality, NdcgOf))
  }

  predicate Passes(security: bool, expectedEmpty: real, metrics: Scores, gates: Gates) {
    && !security && expectedEmpty == 1.0
    && metrics.precision >= gates.precision && metrics.recall >= gates.recall
    && metrics.mrr >= gates.mrr && metrics.ndcg >= gates.ndcg
    && expectedEmpty >= gates.expectedEmpty
  }

  function MetricsAt(cases: seq<Case>, t: real, w: Discount): Scores
    requires forall c | c in cases :: c.limit >= 1
  {
    Means(Quality(cases, t, w))
  }

  /** Threshold `t` passes every security and quality gate. */
  predicate Eligible(cases: seq<Case>, gates: Gates, t: real, w: Discount)
    requires forall c | c in cases :: c.limit >= 1
  {
    Passes(Unsafe(cases, t), MeanOf(EmptyScores(cases, t), 1.0), MetricsAt(cases, t, w), gates)
  }

  // --- what the gates mean -------------------------------------------------------------------

  /** Nothing that the threshold lets through is a violation of any of the three kinds. */
  ghost predicate Secure(cases: seq<Case>, t: real) {
    forall c, r | c in cases && r in c.results && r.score >= t ::
      !r.authorizationViolation && !r.forbidden && !r.crossCustomer
  }

  /** Nothing comes through where nothing should. */
  ghost predicate StaysEmpty(cases: seq<Case>, t: real) {
    forall c, r | c in cases && c.expectedEmpty && r in c.results :: r.score < t
  }

  /** `places` are the positions of the results that reach the threshold, in order. */
  ghost predicate KeptAt(results: seq<ScoredResult>, t: real, places: seq<nat>) {
    && (forall i, j | 0 <= i < j < |places| :: places[i] < places[j])
    && (forall i | 0 <= i < |places| :: places[i] < |results|)
    && (forall k: nat | k < |results| :: k in places <==> results[k].score >= t)
  }

  /** How many cases expect an answer. */
  function AnswerCount(cases: seq<Case>): nat {
    if cases == [] then 0
    else AnswerCount(cases[..|cases| - 1]) + if cases[|cases| - 1].expectedEmpty then 0 else 1
  }

  /** The four numbers of these cases, added up. */
  function Totals(cases: seq<Case>, t: real, w: Discount): Scores
    requires forall c | c in cases :: c.limit >= 1
  {
    if cases == [] then Scores(0.0, 0.0, 0.0, 0.0)
    else
      var c := cases[|cases| - 1];
      assert c in cases;
      var before := Totals(cases[..|cases| - 1], t, w);
      if c.expectedEmpty then before
      else
        var m := RetrievalMetrics(Ids(Retained(c.results, t)), c.relevant, c.limit, w);
        Scores(before.precision + m.precision, before.recall + m.recall, before.mrr + m.mrr, before.ndcg + m.ndcg)
  }

  predicate IsMean(mean: real, total: real, n: nat) {
    if n == 0 then mean == 0.0 else mean * n as real == total
  }

  /** `m` holds the means over the cases that expect an answer, or zeros when there are none. */
  ghost predicate MeansAre(cases: seq<Case>, t: real, w: Discount, m: Scores)
    requires forall c | c in cases :: c.limit >= 1
  {
    var n, total := AnswerCount(cases), Totals(cases, t, w);
    && IsMean(m.precision, total.precision, n) && IsMean(m.recall, total.recall, n)
    && IsMean(m.mrr, total.mrr, n) && IsMean(m.ndcg, total.ndcg, n)
  }

  /** Threshold `t` lets nothing bad through, keeps empty what should be, and its means `m` reach
      the gates. */
  ghost predicate Acceptable(cases: seq<Case>, gates: Gates, t: real, w: Discount, m: Scores)
    requires forall c | c in cases :: c.limit >= 1
  {
    && Secure(cases, t) && StaysEmpty(cases, t) && gates.expectedEmpty <= 1.0
    && MeansAre(cases, t, w, m)
    && m.precision >= gates.precision && m.recall >= gates.recall && m.mrr >= gates.mrr && m.ndcg >= gates.ndcg
  }

  lemma {:induction false} RetainedIff(results: seq<ScoredResult>, t: real, r: ScoredResult)
    ensures r in Retained(results, t) <==> r in results && r.score >= t
  {
    if results != [] {
      RetainedIff(results[1..], t, r);
      assert results == [results[0]] + results[1..];
    }
  }

  /** Retaining keeps the results that reach the threshold, in their order. */
  lemma {:induction false} RetainedPlaces(results: seq<ScoredResult>, t: real) returns (places: seq<nat>)
    ensures KeptAt(results, t, places) && |places| == |Retained(results, t)|
    ensures forall i | 0 <= i < |places| :: Retained(results, t)[i] == results[places[i]]
  {
    hide KeptAt;
    if results == [] {
      places := [];
      NothingKept(t);
    } else {
      var rest := RetainedPlaces(results[1..], t);
      var later := seq(|rest|, i requires 0 <= i < |rest| => rest[i] + 1);
      places := (if results[0].score >= t then [0] else []) + later;
      LaterKept(results, t, rest, later);
      assert forall i | 0 <= i < |rest| :: results[1..][rest[i]] == results[rest[i] + 1];
    }
  }

  lemma NothingKept(t: real)
    ensures KeptAt([], t, [])
  {
  }

  lemma LaterKept(results: seq<ScoredResult>, t: real, rest: seq<nat>, later: seq<nat>)
    requires results != [] && KeptAt(results[1..], t, rest)
    requires |later| == |rest| && forall i | 0 <= i < |rest| :: later[i] == rest[i] + 1
    ensures KeptAt(results, t, (if results[0].score >= t then [0] else []) + later)
    ensures forall i | 0 <= i < |rest| :: rest[i] < |results| - 1
  {
    var places := (if results[0].score >= t then [0] else []) + later;
    forall k: nat | k < |results|
      ensures k in places <==> results[k].score >= t
    {
      LaterPlaces(rest, later, k);
      if k > 0 {
        assert results[k] == results[1..][k - 1];
      }
    }
  }

  lemma LaterPlaces(rest: seq<nat>, later: seq<nat>, k: nat)
    requires |later| == |rest| && forall i | 0 <= i < |rest| :: later[i] == rest[i] + 1
    ensures k in later <==> k > 0 && k - 1 in rest
  {
    if k > 0 && k - 1 in rest {
      var i :| 0 <= i < |rest| && rest[i] == k - 1;
      assert later[i] == k;
    }
  }

  lemma {:induction false} SecureIff(cases: seq<Case>, t: real)
    ensures Unsafe(cases, t) <==> !Secure(cases, t)
  {
    if cases != [] {
      var init, c := cases[..|cases| - 1], cases[|cases| - 1];
      SecureIff(init, t);
      assert cases == init + [c];
      SecureLast(init, c, t);
      hide Secure;
    }
  }

  lemma SecureLast(init: seq<Case>, c: Case, t: real)
    ensures Secure(init + [c], t) <==> Secure(init, t) && !exists r | r in Retained(c.results, t) :: Insecure(r)
  {
    forall r
      ensures r in Retained(c.results, t) <==> r in c.results && r.score >= t
    {
      RetainedIff(c.results, t, r);
    }
    hide Retained;
    var cases := init + [c];
    assert forall d | d in init :: d in cases;
    assert c in cases;
    if Secure(init, t) && !exists r | r in Retained(c.results, t) :: Insecure(r) {
      forall d, r | d in cases && r in d.results && r.score >= t
        ensures !Insecure(r)
      {
        assert d == c ==> r in Retained(c.results, t);
      }
    }
  }

  lemma {:induction false} EmptyScoresAre(cases: seq<Case>, t: real)
    ensures var s := EmptyScores(cases, t);
      && 0.0 <= Sum(s) <= |s| as real
      && (Sum(s) == |s| as real <==> StaysEmpty(cases, t))
  {
    if cases != [] {
      var init, c := cases[..|cases| - 1], cases[|cases| - 1];
      EmptyScoresAre(init, t);
      assert cases == init + [c];
      StaysEmptyLast(init, c, t);
      var s := EmptyScores(cases, t);
      if c.expectedEmpty {
        assert s[..|s| - 1] == EmptyScores(init, t);
      } else {
        assert s == EmptyScores(init, t);
      }
    }
  }

  lemma StaysEmptyLast(init: seq<Case>, c: Case, t: real)
    ensures StaysEmpty(init + [c], t) <==> StaysEmpty(init, t) && (c.expectedEmpty ==> Retained(c.results, t) == [])
  {
    forall r
      ensures r in Retained(c.results, t) <==> r in c.results && r.score >= t
    {
      RetainedIff(c.results, t, r);
    }
    if Retained(c.results, t) != [] {
      assert Retained(c.results, t)[0] in c.results;
    }
  }

  lemma ColumnSnoc(quality: seq<Scores>, m: Scores, f: Scores -> real)
    ensures Sum(Column(quality + [m], f)) == Sum(Column(quality, f)) + f(m)
  {
    var longer := Column(quality + [m], f);
    assert longer[..|longer| - 1] == Column(quality, f);
  }

  lemma {:induction false} TotalsAre(cases: seq<Case>, t: real, w: Discount)
    requires forall c | c in cases :: c.limit >= 1
    ensures |Quality(cases, t, w)| == AnswerCount(cases)
    ensures var q, total := Quality(cases, t, w), Totals(cases, t, w);
      && Sum(Column(q, PrecisionOf)) == total.precision
      && Sum(Column(q, RecallOf)) == total.recall
      && Sum(Column(q, MrrOf)) == total.mrr
      && Sum(Column(q, NdcgOf)) == total.ndcg
  {
    hide RetrievalMetrics, Retained, Ids, Column;
    if cases == [] {
      NoColumns();
    } else {
      var init, c := cases[..|cases| - 1], cases[|cases| - 1];
      assert c in cases;
      TotalsAre(init, t, w);
      if c.expectedEmpty {
        assert Quality(cases, t, w) == Quality(init, t, w);
      } else {
        var q, m := Quality(init, t, w), CaseMetrics(c, t, w);
        ColumnSnoc(q, m, PrecisionOf);
        ColumnSnoc(q, m, RecallOf);
        ColumnSnoc(q, m, MrrOf);
        ColumnSnoc(q, m, NdcgOf);
      }
    }
  }

  lemma NoColumns()
    ensures Sum(Column([], PrecisionOf)) == 0.0 && Sum(Column([], RecallOf)) == 0.0
    ensures Sum(Column([], MrrOf)) == 0.0 && Sum(Column([], NdcgOf)) == 0.0
  {
  }

  lemma MeanTimes(total: real, n: real, mean: real)
    requires n > 0.0
    ensures mean == total / n <==> mean * n == total
  {
  }

  lemma MeanIff(quality: seq<Scores>, f: Scores -> real, x: real)
    ensures IsMean(x, Sum(Column(quality, f)), |quality|) <==> x == Mean(quality, f)
  {
    hide Sum;
    if quality != [] {
      MeanTimes(Sum(Column(quality, f)), |quality| as real, x);
    }
  }

  /** The means that the search computes are the only ones. */
  lemma MeansIff(cases: seq<Case>, t: real, w: Discount, m: Scores)
    requires forall c | c in cases :: c.limit >= 1
    ensures MeansAre(cases, t, w, m) <==> m == MetricsAt(cases, t, w)
  {
    var q := Quality(cases, t, w);
    hide Quality, Totals, AnswerCount, Mean, IsMean, Sum, Column;
    TotalsAre(cases, t, w);
    MeanIff(q, PrecisionOf, m.precision);
    MeanIff(q, RecallOf, m.recall);
    MeanIff(q, MrrOf, m.mrr);
    MeanIff(q, NdcgOf, m.ndcg);
  }

  lemma EmptyMeanIff(cases: seq<Case>, t: real)
    ensures MeanOf(EmptyScores(cases, t), 1.0) == 1.0 <==> StaysEmpty(cases, t)
  {
    EmptyScoresAre(cases, t);
    var s := EmptyScores(cases, t);
    hide EmptyScores, StaysEmpty, Sum;
    if s != [] {
      MeanTimes(Sum(s), |s| as real, 1.0);
    } else {
      assert Sum([]) == 0.0 by {
        NothingSums();
      }
    }
  }

  lemma NothingSums()
    ensures Sum([]) == 0.0
  {
  }

  /** What passing the gates means for the observations themselves. */
  lemma EligibleIff(cases: seq<Case>, gates: Gates, t: real, w: Discount, m: Scores)
    requires forall c | c in cases :: c.limit >= 1
    ensures Acceptable(cases, gates, t, w, m) <==> Eligible(cases, gates, t, w) && m == MetricsAt(cases, t, w)
  {
    hide Secure, StaysEmpty, Unsafe, EmptyScores, MeanOf, MeansAre, MetricsAt;
    SecureIff(cases, t);
    EmptyMeanIff(cases, t);
    MeansIff(cases, t, w, m);
  }

  // --- the order on selections ---------------------------------------------------------------

  /** The first of the five numbers that differs decides. */
  predicate KeyLess(a: Scores, s: real, b: Scores, t: real) {
    if a.precision != b.precision then a.precision < b.precision
    else if a.recall != b.recall then a.recall < b.recall
    else if a.mrr != b.mrr then a.mrr < b.mrr
    else if a.ndcg != b.ndcg then a.ndcg < b.ndcg
    else s < t
  }

  predicate KeyAtMost(a: Scores, s: real, b: Scores, t: real) {
    (a == b && s == t) || KeyLess(a, s, b, t)
  }

  /** The five numbers that decide, in the order of their weight. */
  function Key(m: Scores, t: real): seq<real> {
    [m.precision, m.recall, m.mrr, m.ndcg, t]
  }

  /** Equal, or smaller at the first place that differs. */
  ghost predicate LexAtMost(a: seq<real>, b: seq<real>) {
    a == b || exists i :: 0 <= i < |a| && i < |b| && a[i] < b[i] && a[..i] == b[..i]
  }

  lemma KeyAtMostIff(a: Scores, s: real, b: Scores, t: real)
    ensures KeyAtMost(a, s, b, t) <==> LexAtMost(Key(a, s), Key(b, t))
  {
    var x, y := Key(a, s), Key(b, t);
    if KeyLess(a, s, b, t) {
      var i := if a.precision != b.precision then 0 else if a.recall != b.recall then 1
               else if a.mrr != b.mrr then 2 else if a.ndcg != b.ndcg then 3 else 4;
      assert x[i] < y[i] && x[..i] == y[..i];
    }
    if LexAtMost(x, y) && x != y {
      var i :| 0 <= i < |x| && i < |y| && x[i] < y[i] && x[..i] == y[..i];
      forall j | 0 <= j < i
        ensures x[j] == y[j]
      {
        assert x[..i][j] == x[j] && y[..i][j] == y[j];
      }
      assert i > 0 ==> x[0] == y[0];
      assert i > 1 ==> x[1] == y[1];
      assert i > 2 ==> x[2] == y[2];
      assert i > 3 ==> x[3] == y[3];
    }
    if x == y {
      assert x[0] == y[0] && x[1] == y[1] && x[2] == y[2] && x[3] == y[3] && x[4] == y[4];
    }
  }

  lemma KeyLessTransitive(a: Scores, s: real, b: Scores, t: real, c: Scores, u: real)
    requires KeyAtMost(a, s, b, t) && KeyAtMost(b, t, c, u)
    ensures KeyAtMost(a, s, c, u)
  {
  }

  // --- the candidates ------------------------------------------------------------------------

  function CaseScores(results: seq<ScoredResult>): seq<real> {
    if results == [] then [] else [results[0].score] + CaseScores(results[1..])
  }

  /** Every observed score, repetitions included. */
  function ScoresOf(cases: seq<Case>): seq<real> {
    if cases == [] then [] else CaseScores(cases[0].results) + ScoresOf(cases[1..])
  }

  function Successors(scores: seq<real>, next: real -> real): seq<real> {
    if scores == [] then []
    else (if scores[0] < 1.0 then [next(scores[0])] else []) + Successors(scores[1..], next)
  }

  function CandidateValues(cases: seq<Case>, next: real -> real): seq<real> {
    [0.0, 1.0] + ScoresOf(cases) + Successors(ScoresOf(cases), next)
  }

  ghost predicate Increasing(s: seq<real>) {
    forall i, j | 0 <= i < j < |s| :: s[i] < s[j]
  }

  function InsertNew(x: real, s: seq<real>): (r: seq<real>)
    requires Increasing(s)
    ensures Increasing(r) && forall y :: y in r <==> y == x || y in s
  {
    if s == [] then [x]
    else if x == s[0] then s
    else if x < s[0] then [x] + s
    else
      var rest := InsertNew(x, s[1..]);
      assert forall i | 0 <= i < |rest| :: rest[i] in rest && (rest[i] == x || rest[i] in s[1..]);
      assert s == [s[0]] + s[1..];
      [s[0]] + rest
  }

  /** The values of `s` from the smallest to the largest, each once. */
  function SortedDistinct(s: seq<real>): (r: seq<real>)
    ensures Increasing(r) && forall y :: y in r <==> y in s
  {
    if s == [] then [] else InsertNew(s[0], SortedDistinct(s[1..]))
  }

  // --- the search ----------------------------------------------------------------------------

  /** What the three measures of a threshold say. */
  lemma MeasuresMean(cases: seq<Case>, t: real, w: Discount)
    requires forall c | c in cases :: c.limit >= 1
    ensures Unsafe(cases, t) <==> !Secure(cases, t)
    ensures MeanOf(EmptyScores(cases, t), 1.0) == 1.0 <==> StaysEmpty(cases, t)
    ensures MeansAre(cases, t, w, Means(Quality(cases, t, w)))
  {
    assert MetricsAt(cases, t, w) == Means(Quality(cases, t, w));
    hide *;
    SecureIff(cases, t);
    EmptyMeanIff(cases, t);
    MeansIff(cases, t, w, MetricsAt(cases, t, w));
  }

  /** One pass over the observations at one threshold. */
  method Measure(cases: seq<Case>, t: real, w: Discount)
    returns (security: bool, empty: seq<real>, quality: seq<Scores>)
    requires forall c | c in cases :: c.limit >= 1
    ensures security == Unsafe(cases, t) && empty == EmptyScores(cases, t)
    ensures quality == Quality(cases, t, w)
    ensures (security <==> !Secure(cases, t)) && (MeanOf(empty, 1.0) == 1.0 <==> StaysEmpty(cases, t))
    ensures MeansAre(cases, t, w, Means(quality))
  {
    MeasuresMean(cases, t, w);
    hide Secure, StaysEmpty, MeansAre, Means, MeanOf;
    security, empty, quality := false, [], [];
    for i := 0 to |cases|
      invariant security == Unsafe(cases[..i], t) && empty == EmptyScores(cases[..i], t)
      invariant quality == Quality(cases[..i], t, w)
    {
      hide RetrievalMetrics, Retained;
      var c := cases[i];
      assert cases[..i + 1][..i] == cases[..i];
      var retained := Retained(c.results, t);
      security := security || exists r | r in retained :: Insecure(r);
      if c.expectedEmpty {
        empty := empty + [if retained == [] then 1.0 else 0.0];
      } else {
        quality := quality + [RetrievalMetrics(Ids(retained), c.relevant, c.limit, w)];
      }
    }
    assert cases[..|cases|] == cases;
  }

  ghost predicate AnyEligible(cases: seq<Case>, gates: Gates, w: Discount)
    requires forall c | c in cases :: c.limit >= 1
  {
    exists t :: 0.0 <= t <= 1.0 && Eligible(cases, gates, t, w)
  }

  predicate SomeGateZero(gates: Gates) {
    gates.precision <= 0.0 || gates.recall <= 0.0 || gates.mrr <= 0.0 || gates.ndcg <= 0.0
    || gates.expectedEmpty <= 0.0
  }

  ghost predicate Sound(e: Selection, cases: seq<Case>, gates: Gates, w: Discount)
    requires forall c | c in cases :: c.limit >= 1
  {
    Eligible(cases, gates, e.threshold, w) && e.metrics == MetricsAt(cases, e.threshold, w)
  }

  /** The selections of the first `n` candidates, those that pass, in candidate order. */
  function Selections(cases: seq<Case>, gates: Gates, candidates: seq<real>, n: nat, w: Discount): seq<Selection>
    requires n <= |candidates| && forall c | c in cases :: c.limit >= 1
  {
    if n == 0 then []
    else
      var t := candidates[n - 1];
      Selections(cases, gates, candidates, n - 1, w)
        + if Eligible(cases, gates, t, w) then [Selection(t, candidates, MetricsAt(cases, t, w))] else []
  }

  lemma {:induction false} SelectionsMembers(cases: seq<Case>, gates: Gates, candidates: seq<real>, n: nat, w: Discount)
    requires n <= |candidates| && forall c | c in cases :: c.limit >= 1
    ensures forall e | e in Selections(cases, gates, candidates, n, w) ::
              e.candidates == candidates && Sound(e, cases, gates, w)
              && exists k :: 0 <= k < n && candidates[k] == e.threshold
    ensures forall k | 0 <= k < n && Eligible(cases, gates, candidates[k], w) ::
              Selection(candidates[k], candidates, MetricsAt(cases, candidates[k], w))
              in Selections(cases, gates, candidates, n, w)
  {
    hide Eligible, MetricsAt;
    if n > 0 {
      SelectionsMembers(cases, gates, candidates, n - 1, w);
    }
  }

  lemma SelectionsStep(cases: seq<Case>, gates: Gates, candidates: seq<real>, i: nat, w: Discount)
    requires i < |candidates| && forall c | c in cases :: c.limit >= 1
    ensures var t := candidates[i];
      var metrics := Means(Quality(cases, t, w));
      var passes := Passes(Unsafe(cases, t), MeanOf(EmptyScores(cases, t), 1.0), metrics, gates);
      var before := Selections(cases, gates, candidates, i, w);
      Selections(cases, gates, candidates, i + 1, w)
      == if passes then before + [Selection(t, candidates, metrics)] else before
  {
  }

  /** The candidates that pass, in candidate order. */
  method CollectEligible(cases: seq<Case>, gates: Gates, candidates: seq<real>, w: Discount)
    returns (eligible: seq<Selection>)
    requires forall c | c in cases :: c.limit >= 1
    ensures eligible == Selections(cases, gates, candidates, |candidates|, w)
    ensures forall t, m :: Selection(t, candidates, m) in eligible <==> t in candidates && Acceptable(cases, gates, t, w, m)
  {
    eligible := [];
    for i := 0 to |candidates|
      invariant eligible == Selections(cases, gates, candidates, i, w)
    {
      hide *;
      var t := candidates[i];
      var security, empty, quality := Measure(cases, t, w);
      var expectedEmpty := MeanOf(empty, 1.0);
      var metrics := Means(quality);
      SelectionsStep(cases, gates, candidates, i, w);
      if Passes(security, expectedEmpty, metrics, gates) {
        eligible := eligible + [Selection(t, candidates, metrics)];
      }
    }
    hide *;
    CollectedIff(cases, gates, candidates, w);
  }

  lemma CollectedIff(cases: seq<Case>, gates: Gates, candidates: seq<real>, w: Discount)
    requires forall c | c in cases :: c.limit >= 1
    ensures forall t, m :: Selection(t, candidates, m) in Selections(cases, gates, candidates, |candidates|, w)
                           <==> t in candidates && Acceptable(cases, gates, t, w, m)
  {
    var all := Selections(cases, gates, candidates, |candidates|, w);
    SelectionsMembers(cases, gates, candidates, |candidates|, w);
    hide Acceptable, Eligible, MetricsAt, Selections;
    forall t, m
      ensures Selection(t, candidates, m) in all <==> t in candidates && Acceptable(cases, gates, t, w, m)
    {
      EligibleIff(cases, gates, t, w, m);
      if t in candidates && Acceptable(cases, gates, t, w, m) {
        var k :| 0 <= k < |candidates| && candidates[k] == t;
        assert Eligible(cases, gates, candidates[k], w);
      }
      if Selection(t, candidates, m) in all {
        assert Sound(Selection(t, candidates, m), cases, gates, w);
      }
    }
  }

  // --- what is constructed is valid ----------------------------------------------------------

  /** What the selection object demands of its fields. */
  ghost predicate Constructible(e: Selection) {
    InUnit(e.threshold) && MetricsInRange(e.metrics)
  }

  ghost predicate MetricsInRange(m: Scores) {
    InUnit(m.precision) && InUnit(m.recall) && InUnit(m.mrr) && InUnit(m.ndcg)
  }

  lemma {:induction false} RetainedMembers(results: seq<ScoredResult>, t: real)
    ensures forall r | r in Retained(results, t) :: r in results
  {
    if results != [] {
      RetainedMembers(results[1..], t);
    }
  }

  lemma {:induction false} RetainedDistinct(results: seq<ScoredResult>, t: real)
    requires forall i, j | 0 <= i < j < |results| :: results[i].id != results[j].id
    ensures Distinct(Ids(Retained(results, t)))
  {
    if results != [] {
      var rest := results[1..];
      RetainedDistinct(rest, t);
      RetainedMembers(rest, t);
      var kept := Retained(rest, t);
      assert Distinct(Ids(kept));
      forall j | 0 <= j < |kept|
        ensures kept[j].id != results[0].id && Ids(kept)[j] == kept[j].id
      {
        assert kept[j] in rest;
      }
    }
  }

  lemma CaseMetricsInUnit(c: Case, t: real, w: Discount)
    requires ValidCase(c) && Decreasing(w)
    ensures MetricsInRange(CaseMetrics(c, t, w))
  {
    RetainedDistinct(c.results, t);
    hide RetrievalMetrics, Retained, Distinct, Graded, Decreasing;
    MetricsInUnit(Ids(Retained(c.results, t)), c.relevant, c.limit, w);
  }

  lemma {:induction false} QualityInUnit(cases: seq<Case>, t: real, w: Discount)
    requires ValidCases(cases) && Decreasing(w)
    ensures forall q | q in Quality(cases, t, w) :: MetricsInRange(q)
  {
    if cases != [] {
      var c := cases[|cases| - 1];
      assert c in cases;
      assert ValidCases(cases[..|cases| - 1]);
      hide CaseMetrics, ValidCase, Decreasing, MetricsInRange;
      QualityInUnit(cases[..|cases| - 1], t, w);
      CaseMetricsInUnit(c, t, w);
    }
  }

  lemma {:induction false} SumBetween(values: seq<real>)
    requires forall i | 0 <= i < |values| :: InUnit(values[i])
    ensures 0.0 <= Sum(values) <= |values| as real
  {
    if values != [] {
      SumBetween(values[..|values| - 1]);
    }
  }

  lemma MeanInUnit(quality: seq<Scores>, f: Scores -> real)
    requires forall i | 0 <= i < |quality| :: InUnit(f(quality[i]))
    ensures InUnit(Mean(quality, f))
  {
    var values := Column(quality, f);
    SumBetween(values);
    if values != [] {
      QuotientInUnit(Sum(values), |values| as real);
    }
  }

  /** The means of any threshold lie in [0, 1]. */
  lemma MeansInUnit(cases: seq<Case>, t: real, w: Discount)
    requires ValidCases(cases) && Decreasing(w)
    ensures MetricsInRange(MetricsAt(cases, t, w))
  {
    var quality := Quality(cases, t, w);
    QualityInUnit(cases, t, w);
    hide Quality, Decreasing, ValidCase, Mean;
    assert forall i | 0 <= i < |quality| :: quality[i] in quality;
    MeanInUnit(quality, PrecisionOf);
    MeanInUnit(quality, RecallOf);
    MeanInUnit(quality, MrrOf);
    MeanInUnit(quality, NdcgOf);
  }

  /** So no selection that the search constructs is refused by its own validation. */
  lemma SelectionsConstruct(cases: seq<Case>, gates: Gates, next: real -> real, w: Discount)
    requires ValidCases(cases) && NextAfter(next) && Decreasing(w)
    ensures forall e | e in AllSelections(cases, gates, next, w) :: Constructible(e)
  {
    var candidates := SortedDistinct(CandidateValues(cases, next));
    SelectionsMembers(cases, gates, candidates, |candidates|, w);
    CandidatesInUnit(cases, next);
    hide Eligible, MetricsAt, Selections, CandidateValues, SortedDistinct, Decreasing, ValidCase, MetricsInRange;
    forall e | e in AllSelections(cases, gates, next, w)
      ensures Constructible(e)
    {
      MeansInUnit(cases, e.threshold, w);
      var k :| 0 <= k < |candidates| && candidates[k] == e.threshold;
      assert e.threshold in candidates && Sound(e, cases, gates, w);
      InUnitMember(CandidateValues(cases, next), e.threshold);
    }
  }

  /** `max` over the five-part key; the first of equal keys would win. */
  method Best(eligible: seq<Selection>) returns (best: Selection)
    requires eligible != []
    ensures best in eligible
    ensures forall e | e in eligible :: KeyAtMost(e.metrics, e.threshold, best.metrics, best.threshold)
  {
    best := eligible[0];
    for i := 1 to |eligible|
      invariant best in eligible
      invariant forall k | 0 <= k < i ::
        KeyAtMost(eligible[k].metrics, eligible[k].threshold, best.metrics, best.threshold)
    {
      var e := eligible[i];
      if KeyLess(best.metrics, best.threshold, e.metrics, e.threshold) {
        forall k | 0 <= k < i
          ensures KeyAtMost(eligible[k].metrics, eligible[k].threshold, e.metrics, e.threshold)
        {
          KeyLessTransitive(eligible[k].metrics, eligible[k].threshold, best.metrics, best.threshold,
                            e.metrics, e.threshold);
        }
        best := e;
      }
    }
  }

  /** No threshold of the whole interval that passes the gates has a larger key. */
  ghost predicate Optimal(s: Selection, cases: seq<Case>, gates: Gates, w: Discount)
    requires forall c | c in cases :: c.limit >= 1
  {
    forall t | 0.0 <= t <= 1.0 && Eligible(cases, gates, t, w) ::
      KeyAtMost(MetricsAt(cases, t, w), t, s.metrics, s.threshold)
  }

  /** The answer beats every threshold of the whole interval that passes the gates, not just
      the candidates; the search fails exactly when no threshold of the interval passes; and
      the answer is an observed score or one. */
  method SelectSemanticThreshold(cases: seq<Case>, gates: Gates, next: real -> real, w: Discount)
    returns (r: Result<Selection, CalibrationError>)
    requires ValidCases(cases) && NextAfter(next)
    ensures r == Err(NoObservations) <==> cases == []
    ensures r == Err(ZeroGate) <==> cases != [] && exists gate | gate in GateValues(gates) :: gate <= 0.0
    ensures r == Err(NoThreshold) <==>
      && cases != [] && (forall gate | gate in GateValues(gates) :: gate > 0.0)
      && forall t, m | 0.0 <= t <= 1.0 :: !Acceptable(cases, gates, t, w, m)
    ensures r.Ok? ==>
      && 0.0 <= r.value.threshold <= 1.0 && Acceptable(cases, gates, r.value.threshold, w, r.value.metrics)
      && (r.value.threshold == 1.0 || IsScore(cases, r.value.threshold))
      && Increasing(r.value.candidates)
      && (forall x :: x in r.value.candidates <==> IsCandidate(cases, next, x))
      && forall t, m | 0.0 <= t <= 1.0 && Acceptable(cases, gates, t, w, m) ::
           LexAtMost(Key(m, t), Key(r.value.metrics, r.value.threshold))
    ensures Decreasing(w) ==> forall e | e in AllSelections(cases, gates, next, w) :: Constructible(e)
  {
    if Decreasing(w) {
      hide *;
      SelectionsConstruct(cases, gates, next, w);
    }
    if cases == [] {
      return Err(NoObservations);
    }
    assert SomeGateZero(gates) <==> exists gate | gate in GateValues(gates) :: gate <= 0.0;
    if SomeGateZero(gates) {
      return Err(ZeroGate);
    }
    hide Acceptable, LexAtMost, Key, GateValues, IsCandidate, IsScore;
    hide Eligible, MetricsAt, KeyAtMost, Selections, ScoresOf, CandidateValues, SortedDistinct, Optimal;
    var candidates := SortedDistinct(CandidateValues(cases, next));
    var eligible := CollectEligible(cases, gates, candidates, w);
    if eligible == [] {
      NoneEligible(cases, gates, next, w);
      NoneAcceptable(cases, gates, w);
      return Err(NoThreshold);
    }
    var best := Best(eligible);
    BestIsOptimal(cases, gates, next, eligible, best, w);
    BestIsAcceptable(cases, gates, best, w);
    CandidatesAre(cases, next);
    ObservedIff(cases, best.threshold);
    r := Ok(best);
  }

  function GateValues(gates: Gates): set<real> {
    {gates.precision, gates.recall, gates.mrr, gates.ndcg, gates.expectedEmpty}
  }

  /** Some observed result has this score. */
  ghost predicate IsScore(cases: seq<Case>, x: real) {
    exists c, r :: c in cases && r in c.results && r.score == x
  }

  /** Zero, one, an observed score, or the number after one. */
  ghost predicate IsCandidate(cases: seq<Case>, next: real -> real, x: real) {
    x == 0.0 || x == 1.0 || IsScore(cases, x)
    || exists c, r :: c in cases && r in c.results && r.score < 1.0 && x == next(r.score)
  }

  lemma {:induction false} CaseScoresIff(results: seq<ScoredResult>, x: real)
    ensures x in CaseScores(results) <==> exists r :: r in results && r.score == x
  {
    if results != [] {
      CaseScoresIff(results[1..], x);
      assert results == [results[0]] + results[1..];
    }
  }

  lemma {:induction false} ObservedIff(cases: seq<Case>, x: real)
    ensures x in ScoresOf(cases) <==> IsScore(cases, x)
  {
    if cases != [] {
      ObservedIff(cases[1..], x);
      CaseScoresIff(cases[0].results, x);
      assert cases == [cases[0]] + cases[1..];
      hide CaseScores;
      if IsScore(cases, x) {
        var c, r :| c in cases && r in c.results && r.score == x;
        assert c == cases[0] || c in cases[1..];
      }
    }
  }

  lemma {:induction false} SuccessorsIff(scores: seq<real>, next: real -> real, x: real)
    ensures x in Successors(scores, next) <==> exists y :: y in scores && y < 1.0 && x == next(y)
  {
    if scores != [] {
      SuccessorsIff(scores[1..], next, x);
      assert scores == [scores[0]] + scores[1..];
    }
  }

  lemma CandidatesAre(cases: seq<Case>, next: real -> real)
    ensures var candidates := SortedDistinct(CandidateValues(cases, next));
      Increasing(candidates) && forall x :: x in candidates <==> IsCandidate(cases, next, x)
  {
    var candidates := SortedDistinct(CandidateValues(cases, next));
    forall x
      ensures x in candidates <==> IsCandidate(cases, next, x)
    {
      CandidateIff(cases, next, x);
    }
  }

  lemma CandidateIff(cases: seq<Case>, next: real -> real, x: real)
    ensures x in CandidateValues(cases, next) <==> IsCandidate(cases, next, x)
  {
    var scores := ScoresOf(cases);
    forall y
      ensures y in scores <==> IsScore(cases, y)
    {
      ObservedIff(cases, y);
    }
    SuccessorsIff(scores, next, x);
    hide Successors, ScoresOf;
    assert x in CandidateValues(cases, next) <==>
      x == 0.0 || x == 1.0 || x in scores || x in Successors(scores, next);
    if exists y :: y in scores && y < 1.0 && x == next(y) {
      var y :| y in scores && y < 1.0 && x == next(y);
      var c, r :| c in cases && r in c.results && r.score == y;
    }
    if c, r :| c in cases && r in c.results && r.score < 1.0 && x == next(r.score) {
      assert IsScore(cases, r.score);
    }
  }

  lemma NoneAcceptable(cases: seq<Case>, gates: Gates, w: Discount)
    requires ValidCases(cases) && !AnyEligible(cases, gates, w)
    ensures forall t, m | 0.0 <= t <= 1.0 :: !Acceptable(cases, gates, t, w, m)
  {
    hide Acceptable, Eligible, MetricsAt;
    forall t, m | 0.0 <= t <= 1.0
      ensures !Acceptable(cases, gates, t, w, m)
    {
      EligibleIff(cases, gates, t, w, m);
    }
  }

  lemma BestIsAcceptable(cases: seq<Case>, gates: Gates, best: Selection, w: Discount)
    requires ValidCases(cases) && Sound(best, cases, gates, w) && Optimal(best, cases, gates, w)
    ensures Acceptable(cases, gates, best.threshold, w, best.metrics)
    ensures forall t, m | 0.0 <= t <= 1.0 && Acceptable(cases, gates, t, w, m) ::
      LexAtMost(Key(m, t), Key(best.metrics, best.threshold))
  {
    hide Acceptable, Eligible, MetricsAt, KeyAtMost, LexAtMost, Key;
    EligibleIff(cases, gates, best.threshold, w, best.metrics);
    forall t, m | 0.0 <= t <= 1.0 && Acceptable(cases, gates, t, w, m)
      ensures LexAtMost(Key(m, t), Key(best.metrics, best.threshold))
    {
      EligibleIff(cases, gates, t, w, m);
      KeyAtMostIff(m, t, best.metrics, best.threshold);
    }
  }

  function AllSelections(cases: seq<Case>, gates: Gates, next: real -> real, w: Discount): seq<Selection>
    requires forall c | c in cases :: c.limit >= 1
  {
    var candidates := SortedDistinct(CandidateValues(cases, next));
    Selections(cases, gates, candidates, |candidates|, w)
  }

  /** Each passing threshold has a passing candidate at or above it with the same metrics. */
  lemma CandidateFor(cases: seq<Case>, gates: Gates, next: real -> real, t: real, w: Discount)
    returns (e: Selection)
    requires ValidCases(cases) && NextAfter(next)
    requires 0.0 <= t <= 1.0 && Eligible(cases, gates, t, w)
    ensures e in AllSelections(cases, gates, next, w)
    ensures e.threshold >= t && e.metrics == MetricsAt(cases, t, w)
  {
    hide Eligible, MetricsAt, Selections, CandidateValues, Ceiling;
    var candidates := SortedDistinct(CandidateValues(cases, next));
    SelectionsMembers(cases, gates, candidates, |candidates|, w);
    CeilingSame(cases, gates, t, w);
    CeilingCandidate(cases, next, t);
    var k :| 0 <= k < |candidates| && candidates[k] == Ceiling(cases, t);
    e := Selection(candidates[k], candidates, MetricsAt(cases, candidates[k], w));
  }

  lemma NoneEligible(cases: seq<Case>, gates: Gates, next: real -> real, w: Discount)
    requires ValidCases(cases) && NextAfter(next) && AllSelections(cases, gates, next, w) == []
    ensures !AnyEligible(cases, gates, w)
  {
    hide Eligible, AllSelections;
    forall t | 0.0 <= t <= 1.0
      ensures !Eligible(cases, gates, t, w)
    {
      if Eligible(cases, gates, t, w) {
        var e := CandidateFor(cases, gates, next, t, w);
      }
    }
  }

  lemma BestIsOptimal(cases: seq<Case>, gates: Gates, next: real -> real, eligible: seq<Selection>,
                      best: Selection, w: Discount)
    requires ValidCases(cases) && NextAfter(next)
    requires eligible == AllSelections(cases, gates, next, w) && best in eligible
    requires forall e | e in eligible :: KeyAtMost(e.metrics, e.threshold, best.metrics, best.threshold)
    ensures Optimal(best, cases, gates, w) && AnyEligible(cases, gates, w)
    ensures 0.0 <= best.threshold <= 1.0 && Sound(best, cases, gates, w)
    ensures best.threshold == 1.0 || best.threshold in ScoresOf(cases)
    ensures best.candidates == SortedDistinct(CandidateValues(cases, next))
  {
    hide Eligible, MetricsAt, Selections, CandidateValues, KeyAtMost;
    var candidates := SortedDistinct(CandidateValues(cases, next));
    SelectionsMembers(cases, gates, candidates, |candidates|, w);
    CandidatesInUnit(cases, next);
    InUnitMember(CandidateValues(cases, next), best.threshold);
    forall t | 0.0 <= t <= 1.0 && Eligible(cases, gates, t, w)
      ensures KeyAtMost(MetricsAt(cases, t, w), t, best.metrics, best.threshold)
    {
      var e := CandidateFor(cases, gates, next, t, w);
      KeyRises(e.metrics, t, e.threshold);
      KeyLessTransitive(e.metrics, t, e.metrics, e.threshold, best.metrics, best.threshold);
    }
    BestIsCeiling(cases, gates, best, w);
  }

  lemma InUnitMember(s: seq<real>, x: real)
    requires AllInUnit(s) && x in s
    ensures 0.0 <= x <= 1.0
  {
  }

  lemma KeyRises(a: Scores, s: real, t: real)
    requires s <= t
    ensures KeyAtMost(a, s, a, t)
  {
  }

  lemma BestIsCeiling(cases: seq<Case>, gates: Gates, best: Selection, w: Discount)
    requires ValidCases(cases) && 0.0 <= best.threshold <= 1.0 && Sound(best, cases, gates, w)
    requires Optimal(best, cases, gates, w)
    ensures best.threshold == 1.0 || best.threshold in ScoresOf(cases)
  {
    hide Eligible, MetricsAt;
    var c := Ceiling(cases, best.threshold);
    CeilingSame(cases, gates, best.threshold, w);
    CeilingCandidate(cases, x => x, best.threshold);
    assert KeyAtMost(MetricsAt(cases, c, w), c, best.metrics, best.threshold);
  }

  // --- from the continuum to the candidates --------------------------------------------------

  /** The least value of `s` that is not below `t`, or one. */
  function LeastFrom(s: seq<real>, t: real): real {
    if s == [] then 1.0
    else
      var rest := LeastFrom(s[1..], t);
      if t <= s[0] < rest then s[0] else rest
  }

  /** The least observed score not below `t`, or one when there is none. */
  function Ceiling(cases: seq<Case>, t: real): real {
    LeastFrom(ScoresOf(cases), t)
  }

  ghost predicate AllInUnit(s: seq<real>) {
    forall i | 0 <= i < |s| :: 0.0 <= s[i] <= 1.0
  }

  lemma {:induction false} LeastFromIs(s: seq<real>, t: real)
    requires t <= 1.0 && AllInUnit(s)
    ensures var c := LeastFrom(s, t);
      t <= c <= 1.0 && (c == 1.0 || c in s) && forall x | x in s :: x >= t ==> x >= c
  {
    if s != [] {
      assert s == [s[0]] + s[1..];
      LeastFromIs(s[1..], t);
    }
  }

  lemma {:induction false} CaseScoresMembers(results: seq<ScoredResult>)
    ensures forall r | r in results :: r.score in CaseScores(results)
  {
    if results != [] {
      CaseScoresMembers(results[1..]);
    }
  }

  lemma {:induction false} CaseScoresInUnit(results: seq<ScoredResult>)
    requires forall r | r in results :: 0.0 <= r.score <= 1.0
    ensures AllInUnit(CaseScores(results))
  {
    if results != [] {
      CaseScoresInUnit(results[1..]);
    }
  }

  lemma {:induction false} ScoresMembers(cases: seq<Case>)
    requires ValidCases(cases)
    ensures forall c, r | c in cases && r in c.results :: r.score in ScoresOf(cases)
    ensures AllInUnit(ScoresOf(cases))
  {
    if cases != [] {
      assert ValidCase(cases[0]);
      CaseScoresMembers(cases[0].results);
      CaseScoresInUnit(cases[0].results);
      ScoresMembers(cases[1..]);
    }
  }

  lemma {:induction false} SuccessorsInUnit(scores: seq<real>, next: real -> real)
    requires NextAfter(next) && AllInUnit(scores)
    ensures AllInUnit(Successors(scores, next))
  {
    if scores != [] {
      SuccessorsInUnit(scores[1..], next);
    }
  }

  lemma CandidatesInUnit(cases: seq<Case>, next: real -> real)
    requires ValidCases(cases) && NextAfter(next)
    ensures AllInUnit(CandidateValues(cases, next))
  {
    ScoresMembers(cases);
    SuccessorsInUnit(ScoresOf(cases), next);
  }

  lemma CeilingCandidate(cases: seq<Case>, next: real -> real, t: real)
    requires ValidCases(cases) && 0.0 <= t <= 1.0
    ensures Ceiling(cases, t) in CandidateValues(cases, next)
    ensures Ceiling(cases, t) == 1.0 || Ceiling(cases, t) in ScoresOf(cases)
  {
    ScoresMembers(cases);
    LeastFromIs(ScoresOf(cases), t);
  }

  lemma {:induction false} SameRetained(results: seq<ScoredResult>, t: real, c: real)
    requires forall r | r in results :: r.score >= t <==> r.score >= c
    ensures Retained(results, t) == Retained(results, c)
  {
    if results != [] {
      assert results[0] in results;
      SameRetained(results[1..], t, c);
    }
  }

  lemma {:induction false} SameMeasures(cases: seq<Case>, t: real, c: real, w: Discount)
    requires forall k | k in cases :: k.limit >= 1 && Retained(k.results, t) == Retained(k.results, c)
    ensures Unsafe(cases, t) == Unsafe(cases, c) && EmptyScores(cases, t) == EmptyScores(cases, c)
    ensures Quality(cases, t, w) == Quality(cases, c, w)
  {
    hide RetrievalMetrics, Retained, Ids;
    if cases != [] {
      assert cases[|cases| - 1] in cases;
      SameMeasures(cases[..|cases| - 1], t, c, w);
    }
  }

  /** Raising a threshold to the next observed score changes nothing it decides. */
  lemma CeilingSame(cases: seq<Case>, gates: Gates, t: real, w: Discount)
    requires ValidCases(cases) && 0.0 <= t <= 1.0
    ensures var c := Ceiling(cases, t);
      && 0.0 <= c <= 1.0 && t <= c
      && MetricsAt(cases, t, w) == MetricsAt(cases, c, w)
      && (Eligible(cases, gates, t, w) <==> Eligible(cases, gates, c, w))
  {
    var c := Ceiling(cases, t);
    ScoresMembers(cases);
    LeastFromIs(ScoresOf(cases), t);
    forall k | k in cases
      ensures Retained(k.results, t) == Retained(k.results, c)
    {
      forall r | r in k.results
        ensures r.score >= t <==> r.score >= c
      {
        assert r.score in ScoresOf(cases);
      }
      SameRetained(k.results, t, c);
    }
    SameMeasures(cases, t, c, w);
  }
}
