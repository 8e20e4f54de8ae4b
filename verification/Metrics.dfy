/** Retrieval metrics over graded relevance, on reals. The discount `1 / log2(rank + 1)` is
    any positive strictly decreasing function of the rank. */
module Metrics {
  import opened Ordering

  datatype RelevantItem = RelevantItem(id: string, grade: nat)

  /** What validation of a relevant item guarantees. */
  ghost predicate Graded(items: seq<RelevantItem>) {
    forall item | item in items :: 1 <= item.grade <= 3
  }

  datatype Scores = Scores(precision: real, recall: real, mrr: real, ndcg: real)

  type Discount = nat -> real

  ghost predicate Decreasing(w: Discount) {
    (forall i :: w(i) > 0.0) && forall i, j :: i < j ==> w(i) > w(j)
  }

  // --- the dictionary of grades ------------------------------------------------------------

  /** A dictionary keeps the place of a key's first insertion and the value of its last. */
  function Put(d: seq<RelevantItem>, item: RelevantItem): seq<RelevantItem> {
    if d == [] then [item]
    else if d[0].id == item.id then [item] + d[1..]
    else [d[0]] + Put(d[1..], item)
  }

  function Grades(items: seq<RelevantItem>): seq<RelevantItem> {
    if items == [] then [] else Put(Grades(items[..|items| - 1]), items[|items| - 1])
  }

  function GradeOf(d: seq<RelevantItem>, id: string): nat {
    if d == [] then 0 else if d[0].id == id then d[0].grade else GradeOf(d[1..], id)
  }

  function Values(d: seq<RelevantItem>): (r: seq<nat>)
    ensures |r| == |d| && forall i | 0 <= i < |r| :: r[i] == d[i].grade
  {
    seq(|d|, i requires 0 <= i < |d| => d[i].grade)
  }

  function Observed(d: seq<RelevantItem>, ids: seq<string>): seq<nat> {
    if ids == [] then [] else [GradeOf(d, ids[0])] + Observed(d, ids[1..])
  }

  function Take<T>(s: seq<T>, n: nat): (r: seq<T>)
    ensures |r| == if n < |s| then n else |s|
  {
    if n < |s| then s[..n] else s
  }

  // --- gains -------------------------------------------------------------------------------

  function Pow2(n: nat): nat {
    if n == 0 then 1 else 2 * Pow2(n - 1)
  }

  function Gain(grade: nat): real {
    Pow2(grade) as real - 1.0
  }

  /** The discounted gain of `grades`, the first of them at rank `rank`. */
  function Dcg(grades: seq<nat>, w: Discount, rank: nat): real {
    if grades == [] then 0.0 else Gain(grades[0]) * w(rank) + Dcg(grades[1..], w, rank + 1)
  }

  function Relevant(grades: seq<nat>): nat {
    if grades == [] then 0 else (if grades[0] > 0 then 1 else 0) + Relevant(grades[1..])
  }

  /** The rank, from `rank` on, of the first relevant item; zero when there is none. */
  function FirstRelevant(grades: seq<nat>, rank: nat): nat {
    if grades == [] then 0 else if grades[0] > 0 then rank else FirstRelevant(grades[1..], rank + 1)
  }

  function Ideal(d: seq<RelevantItem>, limit: nat): seq<nat> {
    Take(Sort(Values(d), (a: nat, b: nat) => a >= b), limit)
  }

  function RetrievalMetrics(retrieved: seq<string>, relevant: seq<RelevantItem>, limit: nat, w: Discount): Scores
    requires limit >= 1
  {
    var grades := Grades(relevant);
    var observed := Observed(grades, Take(retrieved, limit));
    var hits := Relevant(observed) as real;
    var first := FirstRelevant(observed, 1);
    var dcg := Dcg(observed, w, 1);
    var ideal := Dcg(Ideal(grades, limit), w, 1);
    Scores(
      hits / limit as real,
      if grades == [] then 0.0 else hits / |grades| as real,
      if first == 0 then 0.0 else 1.0 / first as real,
      if ideal == 0.0 then 0.0 else dcg / ideal)
  }

  // --- gains are positive and monotone -------------------------------------------------------

  lemma GainMonotone(a: nat, b: nat)
    requires a <= b
    ensures 0.0 <= Gain(a) <= Gain(b)
    ensures a < b ==> Gain(a) < Gain(b)
  {
    if a < b {
      GainMonotone(a, b - 1);
    } else if a > 0 {
      GainMonotone(a - 1, a - 1);
    }
  }

  /** The sum of the gains. */
  function Total(grades: seq<nat>): real {
    if grades == [] then 0.0 else Gain(grades[0]) + Total(grades[1..])
  }

  lemma {:induction false} TotalConcat(a: seq<nat>, b: seq<nat>)
    ensures Total(a + b) == Total(a) + Total(b)
  {
    if a == [] {
      assert a + b == b;
    } else {
      assert (a + b)[1..] == a[1..] + b;
      TotalConcat(a[1..], b);
    }
  }

  ghost predicate Downward(s: seq<nat>) {
    forall i, j | 0 <= i < j < |s| :: s[i] >= s[j]
  }

  /** Grades at the same places, none of them larger, total no more. */
  lemma {:induction false} TotalPointwise(a: seq<nat>, b: seq<nat>)
    requires |a| == |b| && forall i | 0 <= i < |a| :: a[i] <= b[i]
    ensures Total(a) <= Total(b)
  {
    if a != [] {
      GainMonotone(a[0], b[0]);
      TotalPointwise(a[1..], b[1..]);
    }
  }

  lemma TotalNonnegative(a: seq<nat>)
    ensures Total(a) >= 0.0
  {
    if a != [] {
      GainMonotone(0, a[0]);
    }
  }

  lemma TotalCons(s: seq<nat>, k: nat)
    requires 1 <= k <= |s|
    ensures Total(s[..k]) == Gain(s[0]) + Total(s[1..][..k - 1])
  {
    assert s[..k][1..] == s[1..][..k - 1];
  }

  lemma TakeOut(a: seq<nat>, i: nat) returns (rest: seq<nat>)
    requires i < |a|
    ensures |rest| == |a| - 1 && multiset(rest) == multiset(a) - multiset{a[i]}
    ensures Total(a) == Gain(a[i]) + Total(rest)
  {
    rest := a[..i] + a[i + 1..];
    assert a == a[..i] + ([a[i]] + a[i + 1..]);
    assert multiset(a) == multiset(a[..i]) + (multiset{a[i]} + multiset(a[i + 1..]));
    TotalConcat(a[..i], [a[i]] + a[i + 1..]);
    TotalConcat([a[i]], a[i + 1..]);
    TotalConcat(a[..i], a[i + 1..]);
  }

  lemma DownwardTail(s: seq<nat>)
    requires Downward(s) && s != []
    ensures Downward(s[1..])
  {
  }

  lemma ShiftTotal(s: seq<nat>, k: nat)
    requires Downward(s) && k < |s|
    ensures Total(s[1..][..k]) <= Total(s[..k])
  {
    TotalPointwise(s[1..][..k], s[..k]);
  }

  /** Removing the head of a list and one equal pick keeps the picks inside the list. */
  lemma PicksInTail(a: seq<nat>, rest: seq<nat>, s: seq<nat>)
    requires s != [] && multiset(a) <= multiset(s)
    requires if s[0] in a then multiset(rest) == multiset(a) - multiset{s[0]} else rest == a
    ensures multiset(rest) <= multiset(s[1..])
  {
    MultisetTail(s);
    if s[0] !in a {
      assert multiset(a)[s[0]] == 0;
    }
  }

  /** However grades are picked from a downward list, the first ones of the list total at
      least as much. */
  lemma {:induction false} TopTotal(a: seq<nat>, s: seq<nat>)
    requires Downward(s) && multiset(a) <= multiset(s)
    ensures |a| <= |s| && Total(a) <= Total(s[..|a|])
    decreases |s|
  {
    SubsetShorter(a, s);
    if s == [] {
      assert a == s[..|a|];
    } else {
      hide Total, Gain, Downward;
      DownwardTail(s);
      if s[0] in a {
        var i :| 0 <= i < |a| && a[i] == s[0];
        var rest := TakeOut(a, i);
        PicksInTail(a, rest, s);
        TopTotal(rest, s[1..]);
        TotalCons(s, |a|);
      } else {
        PicksInTail(a, a, s);
        TopTotal(a, s[1..]);
        ShiftTotal(s, |a|);
      }
    }
  }

  lemma SubsetShorter(a: seq<nat>, s: seq<nat>)
    requires multiset(a) <= multiset(s)
    ensures |a| <= |s|
  {
    var extra := multiset(s) - multiset(a);
    assert multiset(s) == multiset(a) + extra;
    assert |multiset(s)| == |multiset(a)| + |extra|;
  }

  // --- rearrangement: prefix totals decide discounted totals ---------------------------------

  /** Every prefix of `b` totals at least what the same prefix of `a` totals. */
  ghost predicate Dominated(a: seq<nat>, b: seq<nat>) {
    |a| == |b| && forall k | 0 <= k <= |a| :: Total(a[..k]) <= Total(b[..k])
  }

  lemma {:induction false} TotalSnoc(a: seq<nat>, k: nat)
    requires k < |a|
    ensures Total(a[..k + 1]) == Total(a[..k]) + Gain(a[k])
  {
    assert a[..k + 1] == a[..k] + [a[k]];
    TotalConcat(a[..k], [a[k]]);
  }

  lemma {:induction false} DcgConcat(a: seq<nat>, b: seq<nat>, w: Discount, rank: nat)
    ensures Dcg(a + b, w, rank) == Dcg(a, w, rank) + Dcg(b, w, rank + |a|)
  {
    if a == [] {
      assert a + b == b;
    } else {
      assert (a + b)[1..] == a[1..] + b;
      DcgConcat(a[1..], b, w, rank + 1);
    }
  }

  lemma DcgSnoc(a: seq<nat>, k: nat, w: Discount, rank: nat)
    requires k < |a|
    ensures Dcg(a[..k + 1], w, rank) == Dcg(a[..k], w, rank) + Gain(a[k]) * w(rank + k)
  {
    assert a[..k + 1] == a[..k] + [a[k]];
    DcgConcat(a[..k], [a[k]], w, rank);
  }

  lemma Products(x: real, a: real, b: real)
    requires x >= 0.0 && a >= b
    ensures a * x >= b * x
    ensures x > 0.0 && a > b ==> a * x > b * x
  {
  }

  lemma Weighing(before: real, last: real, lead: real)
    requires before > last && last > 0.0 && lead >= 0.0
    ensures before * lead >= last * lead >= 0.0
    ensures lead > 0.0 ==> before * lead > last * lead > 0.0
  {
    Products(lead, before, last);
    Products(lead, last, 0.0);
  }

  lemma PartsStep(before: real, last: real, lead: real, discounted: real, up: real, down: real)
    requires before > last && last > 0.0 && lead >= 0.0 && discounted >= before * lead
    ensures discounted + (up * last - down * last) >= last * (lead + (up - down))
    ensures discounted > before * lead || lead > 0.0
        ==> discounted + (up * last - down * last) > last * (lead + (up - down))
  {
    Weighing(before, last, lead);
    Distribute(last, lead, up, down);
  }

  lemma Distribute(x: real, a: real, b: real, c: real)
    ensures x * (a + (b - c)) == x * a + (b * x - c * x)
  {
  }

  /** Summation by parts: over the first `k` ranks the discounted lead of `b` over `a` is at
      least its plain lead weighed by the smallest discount used so far; it is strictly more
      once the prefix of length `m` was strictly ahead. */
  lemma {:induction false} LeadByParts(a: seq<nat>, b: seq<nat>, k: nat, m: nat, w: Discount, rank: nat)
    requires Dominated(a, b) && Decreasing(w) && 1 <= k <= |a| && m < |a|
    ensures var lead := Total(b[..k]) - Total(a[..k]);
      var discounted := Dcg(b[..k], w, rank) - Dcg(a[..k], w, rank);
      && discounted >= w(rank + k - 1) * lead
      && (m < k && Total(a[..m]) < Total(b[..m]) ==> discounted > w(rank + k - 1) * lead)
  {
    hide Total, Dcg, Gain;
    var last := w(rank + k - 1);
    TotalSnoc(a, k - 1);
    TotalSnoc(b, k - 1);
    DcgSnoc(a, k - 1, w, rank);
    DcgSnoc(b, k - 1, w, rank);
    assert a[..k - 1 + 1] == a[..k] && b[..k - 1 + 1] == b[..k];
    var lead := Total(b[..k - 1]) - Total(a[..k - 1]);
    var discounted := Dcg(b[..k - 1], w, rank) - Dcg(a[..k - 1], w, rank);
    if k == 1 {
      assert a[..0] == [] && b[..0] == [];
      assert last * (Gain(b[0]) - Gain(a[0])) == Gain(b[0]) * last - Gain(a[0]) * last;
    } else {
      LeadByParts(a, b, k - 1, m, w, rank);
      PartsStep(w(rank + k - 2), last, lead, discounted, Gain(b[k - 1]), Gain(a[k - 1]));
    }
  }

  lemma TotalsDecide(a: seq<nat>, b: seq<nat>)
    requires |a| == |b| && forall k | 0 <= k <= |a| :: Total(a[..k]) == Total(b[..k])
    ensures a == b
  {
    forall i | 0 <= i < |a|
      ensures a[i] == b[i]
    {
      hide Total, Gain;
      TotalSnoc(a, i);
      TotalSnoc(b, i);
      assert Total(a[..i]) == Total(b[..i]) && Total(a[..i + 1]) == Total(b[..i + 1]);
      if a[i] < b[i] {
        GainMonotone(a[i], b[i]);
      } else if b[i] < a[i] {
        GainMonotone(b[i], a[i]);
      }
    }
  }

  lemma DcgAtMost(a: seq<nat>, b: seq<nat>, m: nat, w: Discount)
    requires Dominated(a, b) && Decreasing(w) && 1 <= m <= |a|
    ensures Dcg(a, w, 1) <= Dcg(b, w, 1)
    ensures Total(a[..m]) < Total(b[..m]) ==> Dcg(a, w, 1) < Dcg(b, w, 1)
  {
    hide Total, Dcg, Gain;
    var n := |a|;
    assert a[..n] == a && b[..n] == b;
    var lead, last := Total(b[..n]) - Total(a[..n]), w(1 + n - 1);
    Weighing(last + 1.0, last, lead);
    if m < n {
      LeadByParts(a, b, n, m, w, 1);
    } else {
      LeadByParts(a, b, n, 0, w, 1);
      assert a[..m] == a[..n] && b[..m] == b[..n];
    }
  }

  lemma DominatedDcg(a: seq<nat>, b: seq<nat>, w: Discount)
    requires Dominated(a, b) && Decreasing(w)
    ensures Dcg(a, w, 1) <= Dcg(b, w, 1)
    ensures Dcg(a, w, 1) == Dcg(b, w, 1) ==> a == b
  {
    assert |a| == 0 ==> a == b;
    assert a[..0] == b[..0] == [];
    hide Total, Dcg, Gain;
    if |a| > 0 {
      DcgAtMost(a, b, |a|, w);
      if Dcg(a, w, 1) == Dcg(b, w, 1) {
        forall k | 0 <= k <= |a|
          ensures Total(a[..k]) == Total(b[..k])
        {
          if k > 0 {
            DcgAtMost(a, b, k, w);
          }
        }
        TotalsDecide(a, b);
      }
    }
  }

  // --- what was observed is picked from the grades -------------------------------------------

  function NonZero(grades: seq<nat>): seq<nat> {
    if grades == [] then []
    else (if grades[0] > 0 then [grades[0]] else []) + NonZero(grades[1..])
  }

  lemma {:induction false} NonZeroTotal(grades: seq<nat>)
    ensures Total(NonZero(grades)) == Total(grades)
    ensures |NonZero(grades)| == Relevant(grades) <= |grades|
  {
    if grades != [] {
      NonZeroTotal(grades[1..]);
      TotalConcat(if grades[0] > 0 then [grades[0]] else [], NonZero(grades[1..]));
    }
  }

  ghost predicate DistinctKeys(d: seq<RelevantItem>) {
    forall i, j | 0 <= i < j < |d| :: d[i].id != d[j].id
  }

  lemma {:induction false} PutKeepsKeys(d: seq<RelevantItem>, item: RelevantItem)
    requires DistinctKeys(d)
    ensures DistinctKeys(Put(d, item)) && Put(d, item) != []
    ensures forall x | x in Put(d, item) :: x == item || x in d
    ensures forall x | x in Put(d, item) :: x.id == item.id || exists y :: y in d && y.id == x.id
  {
    if d != [] && d[0].id != item.id {
      PutKeepsKeys(d[1..], item);
      forall j | 0 <= j < |Put(d[1..], item)|
        ensures d[0].id != Put(d[1..], item)[j].id
      {
        var x := Put(d[1..], item)[j];
        assert x in Put(d[1..], item);
        assert x == item || x in d[1..];
      }
    }
  }

  lemma {:induction false} GradesDistinct(items: seq<RelevantItem>)
    ensures DistinctKeys(Grades(items))
    ensures forall x | x in Grades(items) :: x in items
    ensures Grades(items) == [] <==> items == []
  {
    if items != [] {
      GradesDistinct(items[..|items| - 1]);
      PutKeepsKeys(Grades(items[..|items| - 1]), items[|items| - 1]);
    }
  }

  lemma {:induction false} GradeOfAt(d: seq<RelevantItem>, id: string)
    ensures GradeOf(d, id) > 0 ==> exists p :: 0 <= p < |d| && d[p].id == id && d[p].grade == GradeOf(d, id)
  {
    if d != [] && d[0].id != id {
      GradeOfAt(d[1..], id);
      if GradeOf(d, id) > 0 {
        var p :| 0 <= p < |d[1..]| && d[1..][p].id == id && d[1..][p].grade == GradeOf(d, id);
        assert d[p + 1] == d[1..][p];
      }
    } else if d != [] {
      assert d[0].id == id;
    }
  }

  lemma {:induction false} GradeOfElsewhere(d: seq<RelevantItem>, p: nat, id: string)
    requires p < |d| && d[p].id != id
    ensures GradeOf(d[..p] + d[p + 1..], id) == GradeOf(d, id)
  {
    var rest := d[..p] + d[p + 1..];
    if p == 0 {
      assert rest == d[1..];
    } else if d[0].id != id {
      assert rest[0] == d[0] && rest[1..] == d[1..][..p - 1] + d[1..][p..];
      GradeOfElsewhere(d[1..], p - 1, id);
    } else {
      assert rest[0] == d[0];
    }
  }

  lemma {:induction false} ObservedElsewhere(d: seq<RelevantItem>, p: nat, ids: seq<string>)
    requires p < |d| && d[p].id !in ids
    ensures Observed(d[..p] + d[p + 1..], ids) == Observed(d, ids)
  {
    if ids != [] {
      GradeOfElsewhere(d, p, ids[0]);
      ObservedElsewhere(d, p, ids[1..]);
    }
  }

  lemma ValuesWithout(d: seq<RelevantItem>, p: nat)
    requires p < |d|
    ensures multiset(Values(d)) == multiset{d[p].grade} + multiset(Values(d[..p] + d[p + 1..]))
  {
    var v := Values(d);
    assert v == v[..p] + [v[p]] + v[p + 1..];
    assert Values(d[..p] + d[p + 1..]) == v[..p] + v[p + 1..];
  }

  /** Without a repeated id, the grades hit are picked from the dictionary's values. */
  lemma {:induction false} ObservedPicked(d: seq<RelevantItem>, ids: seq<string>)
    requires DistinctKeys(d) && Distinct(ids)
    ensures multiset(NonZero(Observed(d, ids))) <= multiset(Values(d))
    decreases |ids|
  {
    if ids != [] {
      var g := GradeOf(d, ids[0]);
      var rest := Observed(d, ids[1..]);
      if g > 0 {
        GradeOfAt(d, ids[0]);
        var p :| 0 <= p < |d| && d[p].id == ids[0] && d[p].grade == g;
        var smaller := d[..p] + d[p + 1..];
        ObservedElsewhere(d, p, ids[1..]);
        ObservedPicked(smaller, ids[1..]);
        ValuesWithout(d, p);
        assert NonZero(Observed(d, ids)) == [g] + NonZero(rest);
      } else {
        ObservedPicked(d, ids[1..]);
        assert NonZero(Observed(d, ids)) == [] + NonZero(rest);
      }
    }
  }

  // --- the ranking against the ideal ---------------------------------------------------------

  lemma ObservedLength(d: seq<RelevantItem>, ids: seq<string>)
    ensures |Observed(d, ids)| == |ids|
  {
  }

  lemma {:induction false} ObservedPrefix(d: seq<RelevantItem>, ids: seq<string>, k: nat)
    requires k <= |ids|
    ensures |Observed(d, ids)| == |ids| && Observed(d, ids)[..k] == Observed(d, ids[..k])
  {
    ObservedLength(d, ids);
    if k > 0 {
      ObservedPrefix(d, ids[1..], k - 1);
      assert ids[..k][1..] == ids[1..][..k - 1];
    }
  }

  lemma IdealDownward(d: seq<RelevantItem>, limit: nat)
    ensures var s := Sort(Values(d), (a: nat, b: nat) => a >= b);
      Downward(s) && multiset(s) == multiset(Values(d)) && |s| == |d|
  {
    SortSorts(Values(d), (a: nat, b: nat) => a >= b);
  }

  function Zeros(n: nat): (r: seq<nat>)
    ensures |r| == n && forall i | 0 <= i < n :: r[i] == 0
  {
    seq(n, _ => 0)
  }

  lemma {:induction false} ZerosWorthNothing(n: nat, w: Discount, rank: nat)
    ensures Dcg(Zeros(n), w, rank) == 0.0 && Total(Zeros(n)) == 0.0
  {
    if n > 0 {
      ZerosWorthNothing(n - 1, w, rank + 1);
      assert Zeros(n)[1..] == Zeros(n - 1);
    }
  }

  function Pad(s: seq<nat>, n: nat): (r: seq<nat>)
    requires |s| <= n
    ensures |r| == n
  {
    s + Zeros(n - |s|)
  }

  lemma PadDcg(s: seq<nat>, n: nat, w: Discount)
    requires |s| <= n
    ensures Dcg(Pad(s, n), w, 1) == Dcg(s, w, 1)
  {
    DcgConcat(s, Zeros(n - |s|), w, 1);
    ZerosWorthNothing(n - |s|, w, 1 + |s|);
  }

  lemma PadPrefix(s: seq<nat>, n: nat, k: nat)
    requires |s| <= n && k <= n
    ensures Total(Pad(s, n)[..k]) == Total(Take(s, k))
  {
    if k <= |s| {
      assert Pad(s, n)[..k] == Take(s, k);
    } else {
      assert Pad(s, n)[..k] == s + Zeros(k - |s|);
      TotalConcat(s, Zeros(k - |s|));
      ZerosWorthNothing(k - |s|, i => 0.0, 0);
    }
  }

  lemma PrefixDominated(d: seq<RelevantItem>, ids: seq<string>, limit: nat, k: nat)
    requires DistinctKeys(d) && Distinct(ids) && |ids| <= limit && k <= limit
    ensures Total(Take(Observed(d, ids), k)) <= Total(Take(Ideal(d, limit), k))
  {
    hide Total, Sort, NonZero, GradeOf, Gain;
    var seen, ideal := Observed(d, ids), Take(Ideal(d, limit), k);
    var s := Sort(Values(d), (a: nat, b: nat) => a >= b);
    IdealDownward(d, limit);
    var m := if k < |ids| then k else |ids|;
    ObservedPrefix(d, ids, m);
    assert Take(seen, k) == Observed(d, ids[..m]);
    var picked := NonZero(Observed(d, ids[..m]));
    ObservedPicked(d, ids[..m]);
    NonZeroTotal(Observed(d, ids[..m]));
    ObservedLength(d, ids[..m]);
    TopTotal(picked, s);
    assert ideal == s[..|picked|] + ideal[|picked|..];
    TotalConcat(s[..|picked|], ideal[|picked|..]);
    TotalNonnegative(ideal[|picked|..]);
  }

  /** Of any ranking without repeated ids, each prefix totals at most what the same prefix
      of the downward grades totals. */
  lemma ObservedDominated(d: seq<RelevantItem>, ids: seq<string>, limit: nat)
    requires DistinctKeys(d) && Distinct(ids) && |ids| <= limit
    ensures |Observed(d, ids)| == |ids| && |Ideal(d, limit)| <= limit
    ensures Dominated(Pad(Observed(d, ids), limit), Pad(Ideal(d, limit), limit))
  {
    hide Total, Sort, NonZero, GradeOf, Gain;
    var seen, ideal := Observed(d, ids), Ideal(d, limit);
    ObservedLength(d, ids);
    forall k | 0 <= k <= limit
      ensures Total(Pad(seen, limit)[..k]) <= Total(Pad(ideal, limit)[..k])
    {
      PadPrefix(seen, limit, k);
      PadPrefix(ideal, limit, k);
      PrefixDominated(d, ids, limit, k);
    }
  }

  lemma {:induction false} DcgPositive(s: seq<nat>, w: Discount, rank: nat)
    requires Decreasing(w)
    ensures Dcg(s, w, rank) >= 0.0
    ensures (exists i :: 0 <= i < |s| && s[i] > 0) ==> Dcg(s, w, rank) > 0.0
  {
    if s != [] {
      GainMonotone(0, s[0]);
      Products(w(rank), Gain(s[0]), 0.0);
      DcgPositive(s[1..], w, rank + 1);
      if exists i :: 0 <= i < |s| && s[i] > 0 {
        var i :| 0 <= i < |s| && s[i] > 0;
        if i > 0 {
          assert s[1..][i - 1] == s[i];
        }
      }
    }
  }

  /** The discounted gain of a ranking never exceeds that of the grades sorted downward, and
      equals it only for a ranking that starts with exactly those grades. */
  lemma RankingBound(d: seq<RelevantItem>, ids: seq<string>, limit: nat, w: Discount)
    requires DistinctKeys(d) && Distinct(ids) && |ids| <= limit && Decreasing(w)
    requires forall x | x in d :: x.grade > 0
    ensures var seen, ideal := Observed(d, ids), Ideal(d, limit);
      && 0.0 <= Dcg(seen, w, 1) <= Dcg(ideal, w, 1)
      && (Dcg(seen, w, 1) == Dcg(ideal, w, 1) <==> |seen| >= |ideal| && seen[..|ideal|] == ideal)
  {
    var seen, ideal := Observed(d, ids), Ideal(d, limit);
    ObservedDominated(d, ids, limit);
    DominatedDcg(Pad(seen, limit), Pad(ideal, limit), w);
    PadDcg(seen, limit, w);
    PadDcg(ideal, limit, w);
    DcgPositive(seen, w, 1);
    if |seen| >= |ideal| && seen[..|ideal|] == ideal {
      assert seen == ideal + seen[|ideal|..];
      DcgConcat(ideal, seen[|ideal|..], w, 1);
      DcgPositive(seen[|ideal|..], w, 1 + |ideal|);
    }
    if Pad(seen, limit) == Pad(ideal, limit) {
      IdealPositive(d, limit);
      forall i | 0 <= i < |ideal|
        ensures i < |seen| && seen[i] == ideal[i]
      {
        assert Pad(seen, limit)[i] == Pad(ideal, limit)[i] == ideal[i];
      }
      if ideal != [] {
        var last := |ideal| - 1;
        assert Pad(seen, limit)[last] == Pad(ideal, limit)[last] == ideal[last] > 0;
      }
      assert seen[..|ideal|] == ideal;
    }
  }

  lemma IdealPositive(d: seq<RelevantItem>, limit: nat)
    requires forall x | x in d :: x.grade > 0
    ensures forall i | 0 <= i < |Ideal(d, limit)| :: Ideal(d, limit)[i] > 0
  {
    var s := Sort(Values(d), (a: nat, b: nat) => a >= b);
    SameElements(s, Values(d));
    forall i | 0 <= i < |Ideal(d, limit)|
      ensures Ideal(d, limit)[i] > 0
    {
      assert s[i] in Values(d);
      var k :| 0 <= k < |d| && Values(d)[k] == s[i];
      assert d[k] in d;
    }
  }

  lemma {:induction false} FirstRelevantRange(grades: seq<nat>, rank: nat)
    requires rank >= 1
    ensures FirstRelevant(grades, rank) == 0 || FirstRelevant(grades, rank) >= rank
    ensures FirstRelevant(grades, rank) == 0 <==> Relevant(grades) == 0
  {
    if grades != [] {
      FirstRelevantRange(grades[1..], rank + 1);
    }
  }

  lemma QuotientInUnit(a: real, b: real)
    requires 0.0 <= a <= b && b > 0.0
    ensures 0.0 <= a / b <= 1.0 && (a / b == 1.0 <==> a == b)
  {
    assert a == (a / b) * b;
  }

  ghost predicate InUnit(x: real) {
    0.0 <= x <= 1.0
  }

  /** All four metrics lie between zero and one, and nDCG is one exactly for a ranking whose
      first places carry the grades of the ideal order. */
  lemma MetricsInUnit(retrieved: seq<string>, relevant: seq<RelevantItem>, limit: nat, w: Discount)
    requires limit >= 1 && Distinct(retrieved) && Graded(relevant) && Decreasing(w)
    ensures var s := RetrievalMetrics(retrieved, relevant, limit, w);
      InUnit(s.precision) && InUnit(s.recall) && InUnit(s.mrr) && InUnit(s.ndcg)
    ensures var d := Grades(relevant);
      var seen, ideal := Observed(d, Take(retrieved, limit)), Ideal(d, limit);
      RetrievalMetrics(retrieved, relevant, limit, w).ndcg == 1.0
      <==> relevant != [] && |seen| >= |ideal| && seen[..|ideal|] == ideal
  {
    var d := Grades(relevant);
    var ids := Take(retrieved, limit);
    var seen, ideal := Observed(d, ids), Ideal(d, limit);
    GradesDistinct(relevant);
    RankingBound(d, ids, limit, w);
    NonZeroTotal(seen);
    ObservedLength(d, ids);
    QuotientInUnit(Relevant(seen) as real, limit as real);
    ObservedPicked(d, ids);
    SubsetShorter(NonZero(seen), Values(d));
    FirstRelevantRange(seen, 1);
    if d != [] {
      QuotientInUnit(Relevant(seen) as real, |d| as real);
      IdealPositive(d, limit);
      assert |ideal| > 0 && ideal[0] > 0;
      DcgPositive(ideal, w, 1);
      QuotientInUnit(Dcg(seen, w, 1), Dcg(ideal, w, 1));
    }
    if FirstRelevant(seen, 1) > 0 {
      QuotientInUnit(1.0, FirstRelevant(seen, 1) as real);
    }
  }
}
