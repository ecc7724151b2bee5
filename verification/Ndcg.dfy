/** The graded retrieval metrics of the evaluation script. */
module Ndcg {

  import opened Records

  /** One entry of a query's relevance judgements; grades are never negative. */
  datatype Graded = Graded(id: Id, grade: nat)

  // ---------- lists ----------

  /** Slicing up to `k`; a negative `k` counts from the end. */
  function Take<T>(s: seq<T>, k: int): seq<T> {
    if k >= |s| then s else if k >= 0 then s[..k] else if |s| + k >= 0 then s[..|s| + k] else []
  }

  predicate Distinct(ids: seq<Id>) {
    forall i, j :: 0 <= i < j < |ids| ==> ids[i] != ids[j]
  }

  predicate Judged(es: seq<Graded>, id: Id) {
    es != [] && (es[0].id == id || Judged(es[1..], id))
  }

  /** The keys of a dictionary. */
  predicate UniqueIds(es: seq<Graded>) {
    es == [] || (!Judged(es[1..], es[0].id) && UniqueIds(es[1..]))
  }

  function Values(es: seq<Graded>): (gs: seq<real>)
    ensures |gs| == |es| && forall i :: 0 <= i < |es| ==> gs[i] == es[i].grade as real
  {
    seq(|es|, i requires 0 <= i < |es| => es[i].grade as real)
  }

  /** relevance.get(id, 0) */
  function GradeOf(es: seq<Graded>, id: Id): (g: real)
    ensures g >= 0.0
  {
    if es == [] then 0.0 else if es[0].id == id then es[0].grade as real else GradeOf(es[1..], id)
  }

  function GradesOf(es: seq<Graded>, ids: seq<Id>): (gs: seq<real>)
    ensures |gs| == |ids| && forall i :: 0 <= i < |ids| ==> gs[i] == GradeOf(es, ids[i])
  {
    seq(|ids|, i requires 0 <= i < |ids| => GradeOf(es, ids[i]))
  }

  // ---------- sorting the grades, greatest first ----------

  predicate Descending(s: seq<real>) {
    forall i, j :: 0 <= i < j < |s| ==> s[i] >= s[j]
  }

  function Insert(x: real, s: seq<real>): seq<real> {
    if s == [] || x >= s[0] then [x] + s else [s[0]] + Insert(x, s[1..])
  }

  function SortDesc(s: seq<real>): seq<real> {
    if s == [] then [] else Insert(s[0], SortDesc(s[1..]))
  }

  lemma {:induction false} InsertPermutes(x: real, s: seq<real>)
    ensures multiset(Insert(x, s)) == multiset(s) + multiset{x}
  {
    if !(s == [] || x >= s[0]) {
      InsertPermutes(x, s[1..]);
      assert s == [s[0]] + s[1..];
    }
  }

  lemma {:induction false} InsertSorts(x: real, s: seq<real>)
    requires Descending(s)
    ensures Descending(Insert(x, s))
  {
    if !(s == [] || x >= s[0]) {
      var rest := Insert(x, s[1..]);
      InsertSorts(x, s[1..]);
      InsertPermutes(x, s[1..]);
      forall i | 0 <= i < |rest| ensures s[0] >= rest[i] {
        assert rest[i] in multiset(rest);
        assert rest[i] == x || rest[i] in s[1..];
      }
    }
  }

  lemma {:induction false} SortDescSorts(s: seq<real>)
    ensures Descending(SortDesc(s)) && multiset(SortDesc(s)) == multiset(s)
  {
    if s != [] {
      SortDescSorts(s[1..]);
      InsertSorts(s[0], SortDesc(s[1..]));
      InsertPermutes(s[0], SortDesc(s[1..]));
      assert s == [s[0]] + s[1..];
    }
  }

  lemma SameLength(s: seq<real>)
    ensures |SortDesc(s)| == |s|
  {
    SortDescSorts(s);
    assert |SortDesc(s)| == |multiset(SortDesc(s))|;
  }

  // ---------- discounted cumulative gain ----------

  function At(s: seq<real>, i: nat): real {
    if i < |s| then s[i] else 0.0
  }

  /** The sum of the first `n` grades, filled up with zeros. */
  function Sum(s: seq<real>, n: nat): real {
    if n == 0 then 0.0 else Sum(s, n - 1) + At(s, n - 1)
  }

  /** The same with the grade at index i weighted by d(i), where the program uses 1 / log2(i + 2). */
  function Weighted(s: seq<real>, d: nat -> real, n: nat): real {
    if n == 0 then 0.0 else Weighted(s, d, n - 1) + d(n - 1) * At(s, n - 1)
  }

  function Dcg(s: seq<real>, d: nat -> real): real {
    Weighted(s, d, |s|)
  }

  ghost predicate Discounts(d: nat -> real) {
    (forall i :: d(i) > 0.0) && (forall i, j :: i < j ==> d(i) > d(j))
  }

  /** The grades of the best possible ranking, up to the cutoff. */
  function Ideal(relevance: seq<Graded>, k: int): seq<real> {
    Take(SortDesc(Values(relevance)), k)
  }

  function Score(gains: seq<real>, ideal: seq<real>, d: nat -> real): Option<real> {
    if ideal == [] || (forall i :: 0 <= i < |ideal| ==> ideal[i] <= 0.0) then None
    else if Dcg(ideal, d) == 0.0 then None
    else Some(Dcg(gains, d) / Dcg(ideal, d))
  }

  function Ndcg(ranked: seq<Id>, relevance: seq<Graded>, k: int, d: nat -> real): Option<real> {
    Score(GradesOf(relevance, Take(ranked, k)), Ideal(relevance, k), d)
  }

  // ---------- the bound ----------

  lemma {:induction false} Abel(lo: seq<real>, hi: seq<real>, d: nat -> real, n: nat)
    requires Discounts(d) && n > 0
    requires forall j :: 0 <= j <= n ==> Sum(lo, j) <= Sum(hi, j)
    ensures Weighted(hi, d, n) - Weighted(lo, d, n) >= d(n - 1) * (Sum(hi, n) - Sum(lo, n))
  {
    var m := n - 1;
    var ahead := Sum(hi, m) - Sum(lo, m);
    if m > 0 {
      Abel(lo, hi, d, m);
      AbelStep(d(m), d(m - 1), ahead, Weighted(hi, d, m) - Weighted(lo, d, m), At(hi, m), At(lo, m));
    } else {
      AbelStep(d(m), d(m), ahead, Weighted(hi, d, m) - Weighted(lo, d, m), At(hi, m), At(lo, m));
    }
    assert Sum(hi, n) - Sum(lo, n) == ahead + (At(hi, m) - At(lo, m));
  }

  lemma AbelStep(c: real, c0: real, ahead: real, weight: real, a: real, b: real)
    requires c <= c0 && ahead >= 0.0 && weight >= c0 * ahead
    ensures weight + (c * a - c * b) >= c * (ahead + (a - b))
  {
    Rescale(c, c0, ahead);
    Spread(c, ahead, a, b);
  }

  lemma Rescale(small: real, big: real, x: real)
    requires small <= big && x >= 0.0
    ensures small * x <= big * x
  {
    var gap := big - small;
    ProductNonNegative(x, gap);
    Distribute(x, small, gap);
  }

  lemma ProductNonNegative(a: real, b: real)
    requires a >= 0.0 && b >= 0.0
    ensures a * b >= 0.0
  {
  }

  lemma Spread(c: real, x: real, a: real, b: real)
    ensures c * (x + (a - b)) == c * x + (c * a - c * b)
  {
    Distribute(c, x, a - b);
    Distribute(c, b, a - b);
    assert b + (a - b) == a;
  }

  lemma Distribute(c: real, x: real, y: real)
    ensures c * (x + y) == c * x + c * y
  {
  }

  /** Grades that are summed later than others weigh less, whatever the discounts. */
  lemma DominatedSumsWeighLess(lo: seq<real>, hi: seq<real>, d: nat -> real, n: nat)
    requires Discounts(d)
    requires forall j :: 0 <= j <= n ==> Sum(lo, j) <= Sum(hi, j)
    ensures Weighted(lo, d, n) <= Weighted(hi, d, n)
  {
    if n > 0 {
      Abel(lo, hi, d, n);
      ProductNonNegative(d(n - 1), Sum(hi, n) - Sum(lo, n));
    }
  }

  // ---------- distinct ids gather at most the greatest grades ----------

  function InsertEntry(e: Graded, es: seq<Graded>): seq<Graded> {
    if es == [] || e.grade >= es[0].grade then [e] + es else [es[0]] + InsertEntry(e, es[1..])
  }

  function SortEntries(es: seq<Graded>): seq<Graded> {
    if es == [] then [] else InsertEntry(es[0], SortEntries(es[1..]))
  }

  lemma {:induction false} InsertEntryValues(e: Graded, es: seq<Graded>)
    ensures Values(InsertEntry(e, es)) == Insert(e.grade as real, Values(es))
  {
    if !(es == [] || e.grade >= es[0].grade) {
      InsertEntryValues(e, es[1..]);
      assert Values(es)[1..] == Values(es[1..]);
    }
  }

  lemma {:induction false} InsertEntryGrades(e: Graded, es: seq<Graded>, id: Id)
    requires !Judged(es, e.id)
    ensures GradeOf(InsertEntry(e, es), id) == if id == e.id then e.grade as real else GradeOf(es, id)
    ensures Judged(InsertEntry(e, es), id) <==> id == e.id || Judged(es, id)
  {
    if es == [] || e.grade >= es[0].grade {
      assert ([e] + es)[1..] == es;
    } else {
      InsertEntryGrades(e, es[1..], id);
      assert ([es[0]] + InsertEntry(e, es[1..]))[1..] == InsertEntry(e, es[1..]);
    }
  }

  lemma {:induction false} InsertEntryUnique(e: Graded, es: seq<Graded>)
    requires !Judged(es, e.id) && UniqueIds(es)
    ensures UniqueIds(InsertEntry(e, es))
  {
    if es == [] || e.grade >= es[0].grade {
      assert ([e] + es)[1..] == es;
    } else {
      InsertEntryUnique(e, es[1..]);
      InsertEntryGrades(e, es[1..], es[0].id);
      assert ([es[0]] + InsertEntry(e, es[1..]))[1..] == InsertEntry(e, es[1..]);
    }
  }

  /** Sorting the entries sorts the grades and changes no judgement. */
  lemma {:induction false} SortEntriesFacts(es: seq<Graded>, id: Id)
    requires UniqueIds(es)
    ensures Values(SortEntries(es)) == SortDesc(Values(es)) && UniqueIds(SortEntries(es))
    ensures GradeOf(SortEntries(es), id) == GradeOf(es, id)
    ensures Judged(SortEntries(es), id) <==> Judged(es, id)
  {
    if es != [] {
      SortEntriesFacts(es[1..], id);
      SortEntriesFacts(es[1..], es[0].id);
      var rest := SortEntries(es[1..]);
      InsertEntryValues(es[0], rest);
      InsertEntryGrades(es[0], rest, id);
      InsertEntryUnique(es[0], rest);
      assert Values(es)[1..] == Values(es[1..]);
    }
  }

  function Total(es: seq<Graded>, ids: seq<Id>): real {
    if ids == [] then 0.0 else GradeOf(es, ids[0]) + Total(es, ids[1..])
  }

  lemma {:induction false} TotalAppend(es: seq<Graded>, a: seq<Id>, b: seq<Id>)
    ensures Total(es, a + b) == Total(es, a) + Total(es, b)
  {
    if a == [] {
      assert a + b == b;
    } else {
      TotalAppend(es, a[1..], b);
      assert (a + b)[1..] == a[1..] + b;
    }
  }

  lemma {:induction false} TotalIsSum(es: seq<Graded>, ids: seq<Id>, n: nat)
    requires n <= |ids|
    ensures Sum(GradesOf(es, ids), n) == Total(es, ids[..n])
  {
    if n == 0 {
      assert ids[..0] == [];
    } else {
      TotalIsSum(es, ids, n - 1);
      assert ids[..n] == ids[..n - 1] + [ids[n - 1]];
      TotalAppend(es, ids[..n - 1], [ids[n - 1]]);
      assert Total(es, [ids[n - 1]]) == GradeOf(es, ids[n - 1]) + Total(es, []);
    }
  }

  lemma {:induction false} TotalOfOthers(es: seq<Graded>, ids: seq<Id>)
    requires es != [] && es[0].id !in ids
    ensures Total(es, ids) == Total(es[1..], ids)
  {
    if ids != [] {
      TotalOfOthers(es, ids[1..]);
    }
  }

  lemma {:induction false} SumFront(s: seq<real>, n: nat)
    requires s != []
    ensures Sum(s, n + 1) == s[0] + Sum(s[1..], n)
  {
    if n > 0 {
      SumFront(s, n - 1);
    } else {
      assert Sum(s, 1) == Sum(s, 0) + At(s, 0);
    }
  }

  lemma {:induction false} SumLater(s: seq<real>, n: nat)
    requires s != [] && Descending(s) && s[|s| - 1] >= 0.0
    ensures Sum(s[1..], n) <= Sum(s, n)
  {
    if n > 0 {
      SumLater(s, n - 1);
    }
  }

  /** The total grade of distinct ids is at most the sum of as many greatest grades. */
  lemma {:induction false} GreatestGradesSumMost(es: seq<Graded>, ids: seq<Id>)
    requires UniqueIds(es) && Descending(Values(es)) && Distinct(ids)
    ensures Total(es, ids) <= Sum(Values(es), |ids|)
    decreases |es|
  {
    if es == [] {
      NothingJudged(ids);
    } else if ids != [] {
      var rest, values := es[1..], Values(es);
      assert values[1..] == Values(rest);
      if es[0].id in ids {
        var p :| 0 <= p < |ids| && ids[p] == es[0].id;
        var others := ids[..p] + ids[p + 1..];
        WithoutOne(es, ids, p);
        GreatestGradesSumMost(rest, others);
        TotalOfOthers(es, others);
        SumFront(values, |others|);
      } else {
        GreatestGradesSumMost(rest, ids);
        TotalOfOthers(es, ids);
        SumLater(values, |ids|);
      }
    }
  }

  lemma WithoutOne(es: seq<Graded>, ids: seq<Id>, p: nat)
    requires p < |ids| && Distinct(ids)
    ensures var others := ids[..p] + ids[p + 1..];
            Distinct(others) && ids[p] !in others && Total(es, ids) == GradeOf(es, ids[p]) + Total(es, others)
  {
    var tail := [ids[p]] + ids[p + 1..];
    assert ids == ids[..p] + tail && tail[1..] == ids[p + 1..];
    TotalAppend(es, ids[..p], tail);
    TotalAppend(es, ids[..p], ids[p + 1..]);
  }

  lemma {:induction false} NothingJudged(ids: seq<Id>)
    ensures Total([], ids) == 0.0 && Sum(Values([]), |ids|) == 0.0
  {
    if ids != [] {
      NothingJudged(ids[1..]);
    }
  }

  // ---------- nDCG lies between 0 and 1 ----------

  ghost predicate Bounded(score: Option<real>) {
    score.Some? ==> 0.0 <= score.value <= 1.0
  }

  ghost predicate NonNegative(s: seq<real>) {
    forall i :: 0 <= i < |s| ==> s[i] >= 0.0
  }

  /** For distinct ids nDCG is between 0 and 1. With a negative cutoff this also needs that no
      more ids are ranked than judged. */
  lemma NdcgIsBounded(ranked: seq<Id>, relevance: seq<Graded>, k: int, d: nat -> real)
    requires Discounts(d) && Distinct(ranked) && UniqueIds(relevance)
    requires k >= 0 || |ranked| <= |relevance|
    ensures Bounded(Ndcg(ranked, relevance, k, d))
  {
    var ideal, taken := Ideal(relevance, k), Take(ranked, k);
    var gains := GradesOf(relevance, taken);
    forall j | 0 <= j <= |taken| ensures Sum(gains, j) <= Sum(ideal, j) {
      GainsAtMostIdeal(ranked, relevance, k, j);
    }
    IdealNonNegative(relevance, k);
    ScoreIsBounded(gains, ideal, d);
  }

  lemma ScoreIsBounded(gains: seq<real>, ideal: seq<real>, d: nat -> real)
    requires Discounts(d) && NonNegative(gains) && NonNegative(ideal)
    requires forall j :: 0 <= j <= |gains| ==> Sum(gains, j) <= Sum(ideal, j)
    ensures Bounded(Score(gains, ideal, d))
  {
    DominatedSumsWeighLess(gains, ideal, d, |gains|);
    WeightedToEnd(ideal, d, |gains|);
    WeightedNonNegative(gains, d, |gains|);
    WeightedNonNegative(ideal, d, |ideal|);
    if Dcg(ideal, d) > 0.0 {
      Ratio(Dcg(gains, d), Dcg(ideal, d));
    }
  }

  /** The first `j` ranked ids gather at most the `j` greatest grades. */
  lemma GainsAtMostIdeal(ranked: seq<Id>, relevance: seq<Graded>, k: int, j: nat)
    requires Distinct(ranked) && UniqueIds(relevance) && j <= |Take(ranked, k)|
    requires k >= 0 || |ranked| <= |relevance|
    ensures Sum(GradesOf(relevance, Take(ranked, k)), j) <= Sum(Ideal(relevance, k), j)
  {
    var s := SortDesc(Values(relevance));
    SameLength(Values(relevance));
    TotalIsSum(relevance, Take(ranked, k), j);
    GreatestGrades(relevance, Take(ranked, k)[..j]);
    SumTaken(s, k, j);
  }

  lemma Ratio(a: real, b: real)
    requires 0.0 <= a <= b && b > 0.0
    ensures 0.0 <= a / b <= 1.0
  {
  }

  lemma SortedNonNegative(s: seq<real>)
    requires NonNegative(s)
    ensures NonNegative(SortDesc(s))
  {
    var r := SortDesc(s);
    SortDescSorts(s);
    forall i | 0 <= i < |r| ensures r[i] >= 0.0 {
      assert r[i] in multiset(s);
    }
  }

  lemma IdealNonNegative(relevance: seq<Graded>, k: int)
    ensures NonNegative(Ideal(relevance, k))
  {
    SortedNonNegative(Values(relevance));
  }

  lemma GreatestGrades(relevance: seq<Graded>, ids: seq<Id>)
    requires UniqueIds(relevance) && Distinct(ids)
    ensures Total(relevance, ids) <= Sum(SortDesc(Values(relevance)), |ids|)
  {
    var es := SortEntries(relevance);
    SortEntriesFacts(relevance, "");
    SortDescSorts(Values(relevance));
    SortedTotal(relevance, ids);
    GreatestGradesSumMost(es, ids);
  }

  lemma {:induction false} SortedTotal(relevance: seq<Graded>, ids: seq<Id>)
    requires UniqueIds(relevance)
    ensures Total(SortEntries(relevance), ids) == Total(relevance, ids)
  {
    if ids != [] {
      SortEntriesFacts(relevance, ids[0]);
      SortedTotal(relevance, ids[1..]);
    }
  }

  /** The cut takes nothing off the sum of the first `j` grades. */
  lemma {:induction false} SumTaken(s: seq<real>, k: int, j: nat)
    requires j <= |Take(s, k)| || Take(s, k) == s
    ensures Sum(Take(s, k), j) == Sum(s, j)
  {
    if j > 0 {
      SumTaken(s, k, j - 1);
    }
  }

  lemma {:induction false} WeightedNonNegative(s: seq<real>, d: nat -> real, n: nat)
    requires Discounts(d) && NonNegative(s)
    ensures Weighted(s, d, n) >= 0.0
  {
    if n > 0 {
      WeightedNonNegative(s, d, n - 1);
      ProductNonNegative(d(n - 1), At(s, n - 1));
    }
  }

  lemma {:induction false} WeightedGrows(s: seq<real>, d: nat -> real, n: nat)
    requires Discounts(d) && NonNegative(s) && n <= |s|
    ensures Weighted(s, d, n) <= Dcg(s, d)
    decreases |s| - n
  {
    if n < |s| {
      WeightedGrows(s, d, n + 1);
      ProductNonNegative(d(n), At(s, n));
    }
  }

  lemma {:induction false} WeightedStops(s: seq<real>, d: nat -> real, n: nat)
    requires n >= |s|
    ensures Weighted(s, d, n) == Dcg(s, d)
  {
    if n > |s| {
      WeightedStops(s, d, n - 1);
      assert At(s, n - 1) == 0.0;
    }
  }

  lemma WeightedToEnd(s: seq<real>, d: nat -> real, n: nat)
    requires Discounts(d) && NonNegative(s)
    ensures Weighted(s, d, n) <= Dcg(s, d)
  {
    if n <= |s| {
      WeightedGrows(s, d, n);
    } else {
      WeightedStops(s, d, n);
    }
  }

  /** The score is missing exactly when every grade up to the cutoff is zero. */
  lemma NdcgIsMissing(ranked: seq<Id>, relevance: seq<Graded>, k: int, d: nat -> real)
    requires Discounts(d)
    ensures Ndcg(ranked, relevance, k, d).None? <==> forall g :: g in Ideal(relevance, k) ==> g == 0.0
  {
    var ideal := Ideal(relevance, k);
    IdealNonNegative(relevance, k);
    if i :| 0 <= i < |ideal| && ideal[i] > 0.0 {
      PositiveGainCounts(ideal, d, i);
      assert ideal[i] in ideal;
    }
  }

  lemma PositiveGainCounts(s: seq<real>, d: nat -> real, i: nat)
    requires Discounts(d) && NonNegative(s) && i < |s| && s[i] > 0.0
    ensures Dcg(s, d) > 0.0
  {
    WeightedNonNegative(s, d, i);
    assert Weighted(s, d, i + 1) == Weighted(s, d, i) + d(i) * s[i];
    WeightedToEnd(s, d, i + 1);
  }

  function IdsOf(es: seq<Graded>): (ids: seq<Id>)
    ensures |ids| == |es| && forall i :: 0 <= i < |es| ==> ids[i] == es[i].id
  {
    seq(|es|, i requires 0 <= i < |es| => es[i].id)
  }

  /** The bound is reached: the ranking by descending grade scores 1. */
  lemma BestRankingScoresOne(relevance: seq<Graded>, k: int, d: nat -> real)
    requires Discounts(d) && UniqueIds(relevance)
    ensures var score := Ndcg(IdsOf(SortEntries(relevance)), relevance, k, d); score.Some? ==> score.value == 1.0
  {
    var es := SortEntries(relevance);
    SortEntriesFacts(relevance, "");
    forall i | 0 <= i < |es| ensures GradeOf(relevance, es[i].id) == es[i].grade as real {
      SortEntriesFacts(relevance, es[i].id);
      GradeAt(es, i);
    }
    GradesOfTaken(relevance, es, k);
    ScoreOfItself(Ideal(relevance, k), d);
  }

  lemma ScoreOfItself(s: seq<real>, d: nat -> real)
    ensures Score(s, s, d).Some? ==> Score(s, s, d).value == 1.0
  {
    if Dcg(s, d) != 0.0 {
      SelfRatio(Dcg(s, d));
    }
  }

  lemma SelfRatio(a: real)
    requires a != 0.0
    ensures a / a == 1.0
  {
  }

  lemma GradesOfTaken(relevance: seq<Graded>, es: seq<Graded>, k: int)
    requires forall i :: 0 <= i < |es| ==> GradeOf(relevance, es[i].id) == es[i].grade as real
    ensures GradesOf(relevance, Take(IdsOf(es), k)) == Take(Values(es), k)
  {
  }

  lemma {:induction false} GradeAt(es: seq<Graded>, i: nat)
    requires UniqueIds(es) && i < |es|
    ensures GradeOf(es, es[i].id) == es[i].grade as real && Judged(es, es[i].id)
  {
    if i > 0 {
      GradeAt(es[1..], i - 1);
    }
  }

  // ---------- where the bound fails ----------

  /** A ranking that repeats an id can score more than 1. */
  lemma RepeatedIdsExceedOne(id: Id, d: nat -> real)
    requires Discounts(d)
    ensures var score := Ndcg([id, id], [Graded(id, 1)], 2, d); score.Some? && score.value > 1.0
  {
    var relevance := [Graded(id, 1)];
    assert Values(relevance) == [1.0] && SortDesc([1.0]) == [1.0] by {
      assert SortDesc([1.0][1..]) == [];
    }
    assert GradesOf(relevance, [id, id]) == [1.0, 1.0];
    assert Weighted([1.0], d, 1) == Weighted([1.0], d, 0) + d(0) * 1.0;
    assert Weighted([1.0, 1.0], d, 1) == Weighted([1.0, 1.0], d, 0) + d(0) * 1.0;
    assert Weighted([1.0, 1.0], d, 2) == Weighted([1.0, 1.0], d, 1) + d(1) * 1.0;
    MoreThanOne(d(0) + d(1), d(0));
  }

  lemma MoreThanOne(a: real, b: real)
    requires a > b > 0.0
    ensures a / b > 1.0
  {
  }

  /** For `n` ranked and `m` judged ids, nDCG is bounded for all of them exactly when the cutoff
      is not negative, or no more ids are ranked than judged, or the cutoff leaves no ideal grade. */
  lemma BoundedExactlyWhen(n: nat, m: nat, k: int, d: nat -> real)
    requires Discounts(d)
    ensures (k >= 0 || n <= m || m + k <= 0) <==>
            forall ranked, relevance ::
              |ranked| == n && |relevance| == m && Distinct(ranked) && UniqueIds(relevance) ==>
                Bounded(Ndcg(ranked, relevance, k, d))
  {
    if k >= 0 || n <= m || m + k <= 0 {
      forall ranked, relevance | |ranked| == n && |relevance| == m && Distinct(ranked) && UniqueIds(relevance)
        ensures Bounded(Ndcg(ranked, relevance, k, d))
      {
        if k >= 0 || n <= m {
          NdcgIsBounded(ranked, relevance, k, d);
        } else {
          SameLength(Values(relevance));
        }
      }
    } else {
      NegativeCutoffExceedsOne(n, m, k, d);
    }
  }

  function Name(i: nat): string {
    seq(i, _ => 'x')
  }

  function Names(n: nat): (ids: seq<Id>)
    ensures |ids| == n && forall i :: 0 <= i < n ==> ids[i] == Name(i)
  {
    seq(n, i requires 0 <= i < n => Name(i))
  }

  /** `m` entries from number `i` on, all of grade 1. */
  function Ones(i: nat, m: nat): (es: seq<Graded>)
    ensures |es| == m && forall j :: 0 <= j < m ==> es[j] == Graded(Name(i + j), 1)
    decreases m
  {
    if m == 0 then [] else [Graded(Name(i), 1)] + Ones(i + 1, m - 1)
  }

  lemma {:induction false} OnesJudged(i: nat, m: nat, id: Id)
    ensures Judged(Ones(i, m), id) <==> i <= |id| < i + m && id == Name(|id|)
    decreases m
  {
    if m > 0 {
      OnesJudged(i + 1, m - 1, id);
      assert Ones(i, m)[1..] == Ones(i + 1, m - 1);
    }
  }

  lemma {:induction false} OnesUnique(i: nat, m: nat)
    ensures UniqueIds(Ones(i, m))
    decreases m
  {
    if m > 0 {
      OnesUnique(i + 1, m - 1);
      OnesJudged(i + 1, m - 1, Name(i));
      assert Ones(i, m)[1..] == Ones(i + 1, m - 1);
    }
  }

  lemma {:induction false} SortConstant(s: seq<real>)
    requires forall i :: 0 <= i < |s| ==> s[i] == 1.0
    ensures SortDesc(s) == s
  {
    if s != [] {
      SortConstant(s[1..]);
      assert s == [s[0]] + s[1..];
    }
  }

  lemma {:induction false} WeightedSame(a: seq<real>, b: seq<real>, d: nat -> real, n: nat)
    requires forall i :: 0 <= i < n ==> At(a, i) == At(b, i)
    ensures Weighted(a, d, n) == Weighted(b, d, n)
  {
    if n > 0 {
      WeightedSame(a, b, d, n - 1);
    }
  }

  /** A negative cutoff keeps more of a longer ranking than of the ideal grades. */
  lemma NegativeCutoffExceedsOne(n: nat, m: nat, k: int, d: nat -> real)
    requires Discounts(d) && k < 0 && m < n && m + k > 0
    ensures |Names(n)| == n && Distinct(Names(n)) && UniqueIds(Ones(0, m))
    ensures !Bounded(Ndcg(Names(n), Ones(0, m), k, d))
  {
    var relevance, ranked, c := Ones(0, m), Names(n), m + k;
    OnesUnique(0, m);
    SortConstant(Values(relevance));
    assert forall i :: 0 <= i < n ==> |ranked[i]| == i;
    var ideal, gains := Ideal(relevance, k), GradesOf(relevance, Take(ranked, k));
    forall i | 0 <= i <= c ensures gains[i] == 1.0 {
      GradeAt(relevance, i);
    }
    assert ideal == Values(relevance)[..c];
    MoreOnesScoreMore(gains, ideal, d);
  }

  lemma MoreOnesScoreMore(gains: seq<real>, ideal: seq<real>, d: nat -> real)
    requires Discounts(d) && NonNegative(gains) && ideal != [] && |ideal| < |gains|
    requires forall i :: 0 <= i < |ideal| ==> ideal[i] == 1.0
    requires forall i :: 0 <= i <= |ideal| ==> gains[i] == 1.0
    ensures !Bounded(Score(gains, ideal, d))
  {
    var c := |ideal|;
    PositiveGainCounts(ideal, d, 0);
    WeightedSame(gains, ideal, d, c);
    assert Weighted(gains, d, c + 1) == Weighted(gains, d, c) + d(c) * 1.0;
    WeightedToEnd(gains, d, c + 1);
    MoreThanOne(Dcg(gains, d), Dcg(ideal, d));
  }

  // ---------- recall ----------

  /** The ids judged at least `threshold`. */
  function Relevant(es: seq<Graded>, threshold: int): set<Id> {
    set e | e in es && e.grade >= threshold :: e.id
  }

  function Hits(ids: seq<Id>, relevant: set<Id>): nat {
    if ids == [] then 0 else (if ids[0] in relevant then 1 else 0) + Hits(ids[1..], relevant)
  }

  function Recall(ranked: seq<Id>, relevance: seq<Graded>, k: int, threshold: int): Option<real> {
    var relevant := Relevant(relevance, threshold);
    if relevant == {} then None else Some(Hits(Take(ranked, k), relevant) as real / |relevant| as real)
  }

  lemma {:induction false} HitsCount(ids: seq<Id>, relevant: set<Id>)
    requires Distinct(ids)
    ensures Hits(ids, relevant) == |set id | id in ids && id in relevant|
  {
    if ids != [] {
      HitsCount(ids[1..], relevant);
      var rest := set id | id in ids[1..] && id in relevant;
      assert (set id | id in ids && id in relevant) == if ids[0] in relevant then rest + {ids[0]} else rest;
    }
  }

  /** Recall is between 0 and 1, and 1 exactly when every relevant id is within the cutoff. */
  lemma RecallIsBounded(ranked: seq<Id>, relevance: seq<Graded>, k: int, threshold: int)
    requires Distinct(ranked)
    ensures var r := Recall(ranked, relevance, k, threshold);
            var relevant := Relevant(relevance, threshold);
            r.Some? ==>
              0.0 <= r.value <= 1.0 &&
              (r.value == 1.0 <==> forall id :: id in relevant ==> id in Take(ranked, k))
  {
    var relevant, taken := Relevant(relevance, threshold), Take(ranked, k);
    if relevant != {} {
      var found := set id | id in taken && id in relevant;
      HitsCount(taken, relevant);
      CardAtMost(found, relevant);
      Ratio(|found| as real, |relevant| as real);
      WholeRatio(|found|, |relevant|);
      assert found == relevant <==> forall id :: id in relevant ==> id in taken;
    }
  }

  lemma CardAtMost<T>(a: set<T>, b: set<T>)
    requires a <= b
    ensures |a| <= |b| && (|a| == |b| <==> a == b)
  {
    assert b == a + (b - a);
  }

  lemma WholeRatio(a: nat, b: nat)
    requires b > 0
    ensures a as real / b as real == 1.0 <==> a == b
  {
  }
}
