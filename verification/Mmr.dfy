/** Maximal marginal relevance reranking with the running maximum of similarities. */
module Mmr {

  import opened Records

  datatype Candidate = Candidate(id: Id, score: real, content: string)

  /** A reranker's settings; others are refused when it is made. */
  datatype Settings = Settings(lambda: real, poolLimit: int)

  function Configure(lambda: real, poolLimit: int): Option<Settings> {
    if 0.0 <= lambda <= 1.0 && 10 <= poolLimit <= 200 then Some(Settings(lambda, poolLimit)) else None
  }

  /** What a selection works on: the pool, the ids with a vector, and the similarity of the
      vectors of two ids. */
  datatype Ground = Ground(lambda: real, pool: seq<Candidate>, has: set<Id>, sim: (Id, Id) -> real)

  // ---------- the naive objective ----------

  function Least(s: seq<Candidate>): (m: real)
    requires s != []
    ensures forall c :: c in s ==> m <= c.score
  {
    if |s| == 1 then s[0].score
    else
      var m := Least(s[..|s| - 1]);
      if s[|s| - 1].score < m then s[|s| - 1].score else m
  }

  function Greatest(s: seq<Candidate>): (m: real)
    requires s != []
    ensures forall c :: c in s ==> c.score <= m
  {
    if |s| == 1 then s[0].score
    else
      var m := Greatest(s[..|s| - 1]);
      if s[|s| - 1].score > m then s[|s| - 1].score else m
  }

  /** The score scaled to the pool; all are 1 when the pool's scores are equal. */
  function Relevance(pool: seq<Candidate>, i: nat): real
    requires i < |pool|
  {
    var lo, hi := Least(pool), Greatest(pool);
    if hi == lo then 1.0 else (pool[i].score - lo) / (hi - lo)
  }

  function Relevances(pool: seq<Candidate>): (rel: seq<real>)
    ensures |rel| == |pool| && forall i :: 0 <= i < |pool| ==> rel[i] == Relevance(pool, i)
  {
    seq(|pool|, i requires 0 <= i < |pool| => Relevance(pool, i))
  }

  /** The place of an id in the pool, the last one if it is there twice, -1 if it is not. */
  function LastIndex(pool: seq<Candidate>, id: Id): (r: int)
    ensures r == -1 <==> forall i :: 0 <= i < |pool| ==> pool[i].id != id
    ensures r != -1 ==> 0 <= r < |pool| && pool[r].id == id
  {
    if pool == [] then -1
    else if pool[|pool| - 1].id == id then |pool| - 1
    else
      var m := |pool| - 1;
      assert forall i :: 0 <= i < m ==> pool[i] == pool[..m][i];
      LastIndex(pool[..m], id)
  }

  function Sim(g: Ground, a: Id, b: Id): real {
    if a in g.has && b in g.has then g.sim(a, b) else 0.0
  }

  function Max(a: real, b: real): real {
    if b > a then b else a
  }

  /** The greatest similarity of `id` to a selected item, but at least 0. */
  function MaxSim(g: Ground, id: Id, selected: seq<Id>): real {
    if selected == [] then 0.0
    else Max(MaxSim(g, id, selected[..|selected| - 1]), Sim(g, id, selected[|selected| - 1]))
  }

  lemma {:induction false} MaxSimIsGreatest(g: Ground, id: Id, selected: seq<Id>)
    ensures var m := MaxSim(g, id, selected);
            m >= 0.0 && (forall s :: s in selected ==> Sim(g, id, s) <= m) &&
            (m == 0.0 || exists s :: s in selected && m == Sim(g, id, s))
  {
    if selected != [] {
      MaxSimIsGreatest(g, id, selected[..|selected| - 1]);
    }
  }

  function Objective(g: Ground, c: Candidate, selected: seq<Id>): real
    requires c in g.pool
  {
    g.lambda * Relevance(g.pool, LastIndex(g.pool, c.id)) - (1.0 - g.lambda) * MaxSim(g, c.id, selected)
  }

  /** Higher objective first, then the earlier place. Equal places mean equal ids, so that the
      program's third key, the id, never decides. */
  predicate Beats(g: Ground, a: Candidate, b: Candidate, selected: seq<Id>)
    requires a in g.pool && b in g.pool
  {
    Objective(g, a, selected) > Objective(g, b, selected) ||
    (Objective(g, a, selected) == Objective(g, b, selected) && LastIndex(g.pool, a.id) < LastIndex(g.pool, b.id))
  }

  lemma PlacesIdentify(pool: seq<Candidate>, a: Candidate, b: Candidate)
    requires a in pool && b in pool && LastIndex(pool, a.id) == LastIndex(pool, b.id)
    ensures a.id == b.id
  {
  }

  // ---------- the selection ----------

  /** The best of the first `n` remaining candidates. */
  function BestOf(g: Ground, remaining: seq<Candidate>, selected: seq<Id>, n: nat): (b: nat)
    requires 0 < n <= |remaining| && forall c :: c in remaining ==> c in g.pool
    ensures b < n
  {
    if n == 1 then 0
    else
      var b := BestOf(g, remaining, selected, n - 1);
      if Beats(g, remaining[n - 1], remaining[b], selected) then n - 1 else b
  }

  lemma {:induction false} BestOfIsBest(g: Ground, remaining: seq<Candidate>, selected: seq<Id>, n: nat)
    requires 0 < n <= |remaining| && forall c :: c in remaining ==> c in g.pool
    ensures forall i :: 0 <= i < n ==> !Beats(g, remaining[i], remaining[BestOf(g, remaining, selected, n)], selected)
  {
    if n > 1 {
      BestOfIsBest(g, remaining, selected, n - 1);
    }
  }

  /** list.remove */
  function Without(s: seq<Candidate>, c: Candidate): (r: seq<Candidate>)
    requires c in s
    ensures |r| == |s| - 1 && forall x :: x in r ==> x in s
  {
    if s[0] == c then s[1..] else [s[0]] + Without(s[1..], c)
  }

  /** Repeatedly select the best by the naive objective. */
  function Select(g: Ground, remaining: seq<Candidate>, selected: seq<Id>, target: int): seq<Id>
    requires forall c :: c in remaining ==> c in g.pool
    decreases |remaining|
  {
    if remaining == [] || |selected| >= target then selected
    else
      var best := remaining[BestOf(g, remaining, selected, |remaining|)];
      Select(g, Without(remaining, best), selected + [best.id], target)
  }

  lemma SelectStep(g: Ground, remaining: seq<Candidate>, selected: seq<Id>, target: int)
    requires remaining != [] && |selected| < target && forall c :: c in remaining ==> c in g.pool
    ensures var best := remaining[BestOf(g, remaining, selected, |remaining|)];
            Select(g, remaining, selected, target) == Select(g, Without(remaining, best), selected + [best.id], target)
  {
  }

  function Target(candidates: seq<Candidate>, topK: int): nat {
    if topK <= 0 then 0 else if topK < |candidates| then topK else |candidates|
  }

  function PoolOf(candidates: seq<Candidate>, s: Settings): seq<Candidate> {
    if 0 <= s.poolLimit < |candidates| then candidates[..s.poolLimit] else candidates
  }

  function IdsOf(s: seq<Candidate>): (ids: seq<Id>)
    ensures |ids| == |s| && forall i :: 0 <= i < |s| ==> ids[i] == s[i].id
  {
    seq(|s|, i requires 0 <= i < |s| => s[i].id)
  }

  /** The candidates whose id is not in the pool, in their order. */
  function Spilled(candidates: seq<Candidate>, pool: seq<Candidate>): seq<Id> {
    if candidates == [] then []
    else (if candidates[0].id in IdsOf(pool) then [] else [candidates[0].id]) + Spilled(candidates[1..], pool)
  }

  function FirstOf(s: seq<Id>, n: nat): seq<Id> {
    if n < |s| then s[..n] else s
  }

  /** What is missing is filled up from the spill. */
  function Filled(ordered: seq<Id>, spill: seq<Id>, target: nat): seq<Id> {
    if |ordered| < target then ordered + FirstOf(spill, target - |ordered|) else ordered
  }

  function RerankedTo(candidates: seq<Candidate>, target: nat, s: Settings, has: set<Id>, sim: (Id, Id) -> real): seq<Id> {
    var pool := PoolOf(candidates, s);
    Filled(Select(Ground(s.lambda, pool, has, sim), pool, [], target), Spilled(candidates, pool), target)
  }

  function Reranked(candidates: seq<Candidate>, topK: int, s: Settings, has: set<Id>, sim: (Id, Id) -> real): seq<Id> {
    RerankedTo(candidates, Target(candidates, topK), s, has, sim)
  }

  // ---------- what is selected ----------

  predicate DistinctIds(s: seq<Candidate>) {
    forall i, j :: 0 <= i < j < |s| ==> s[i].id != s[j].id
  }

  predicate Distinct(ids: seq<Id>) {
    forall i, j :: 0 <= i < j < |ids| ==> ids[i] != ids[j]
  }

  /** `remaining` is the pool without the selected. */
  ghost predicate Open(pool: seq<Candidate>, remaining: seq<Candidate>, selected: seq<Id>) {
    forall c :: c in remaining <==> c in pool && c.id !in selected
  }

  /** In round `r` the candidate taken is beaten by none that is not yet taken. */
  ghost predicate PicksBest(g: Ground, out: seq<Id>, r: nat)
    requires r < |out|
  {
    exists c :: c in g.pool && c.id == out[r] && c.id !in out[..r] &&
      forall d :: d in g.pool && d.id !in out[..r] ==> !Beats(g, d, c, out[..r])
  }

  lemma {:induction false} WithoutIs(s: seq<Candidate>, c: Candidate)
    requires c in s && DistinctIds(s)
    ensures DistinctIds(Without(s, c))
    ensures forall x :: x in Without(s, c) <==> x in s && x.id != c.id
  {
    if s[0] == c {
      var i :| 0 <= i < |s| && s[i] == c;
    } else {
      WithoutIs(s[1..], c);
      var rest := Without(s[1..], c);
      forall i | 0 <= i < |rest| ensures rest[i].id != s[0].id {
        assert rest[i] in s[1..];
      }
    }
  }

  lemma {:induction false} SelectLength(g: Ground, remaining: seq<Candidate>, selected: seq<Id>, target: nat)
    requires |selected| <= target && forall c :: c in remaining ==> c in g.pool
    ensures var out := Select(g, remaining, selected, target);
            selected <= out && |out| == if |selected| + |remaining| < target then |selected| + |remaining| else target
    decreases |remaining|
  {
    if remaining != [] && |selected| < target {
      var best := remaining[BestOf(g, remaining, selected, |remaining|)];
      SelectLength(g, Without(remaining, best), selected + [best.id], target);
    }
  }

  ghost predicate PicksBestFrom(g: Ground, out: seq<Id>, from: nat) {
    forall r :: from <= r < |out| ==> PicksBest(g, out, r)
  }

  /** Every round of a selection picks the best by the naive objective. */
  lemma {:induction false} SelectPicksBest(g: Ground, remaining: seq<Candidate>, selected: seq<Id>, target: nat)
    requires DistinctIds(remaining) && Open(g.pool, remaining, selected) && |selected| <= target
    ensures PicksBestFrom(g, Select(g, remaining, selected, target), |selected|)
    decreases |remaining|
  {
    SelectLength(g, remaining, selected, target);
    if remaining != [] && |selected| < target {
      var best := remaining[BestOf(g, remaining, selected, |remaining|)];
      var rest, more := Without(remaining, best), selected + [best.id];
      OpenAfter(g.pool, remaining, selected, best);
      SelectPicksBest(g, rest, more, target);
      SelectLength(g, rest, more, target);
      var out := Select(g, rest, more, target);
      assert out[..|more|] == more;
      FirstPick(g, remaining, selected, best, out);
    }
  }

  lemma OpenAfter(pool: seq<Candidate>, remaining: seq<Candidate>, selected: seq<Id>, best: Candidate)
    requires DistinctIds(remaining) && Open(pool, remaining, selected) && best in remaining
    ensures DistinctIds(Without(remaining, best)) && Open(pool, Without(remaining, best), selected + [best.id])
  {
    WithoutIs(remaining, best);
  }

  lemma FirstPick(g: Ground, remaining: seq<Candidate>, selected: seq<Id>, best: Candidate, out: seq<Id>)
    requires Open(g.pool, remaining, selected) && remaining != []
    requires best == remaining[BestOf(g, remaining, selected, |remaining|)]
    requires |selected| < |out| && out[..|selected|] == selected && out[|selected|] == best.id
    ensures PicksBest(g, out, |selected|)
  {
    assert best in remaining;
    forall d | d in g.pool && d.id !in selected ensures !Beats(g, d, best, selected) {
      assert d in remaining;
      BestBeatsEach(g, remaining, selected, d);
    }
  }

  lemma BestBeatsEach(g: Ground, remaining: seq<Candidate>, selected: seq<Id>, d: Candidate)
    requires d in remaining && forall c :: c in remaining ==> c in g.pool
    ensures !Beats(g, d, remaining[BestOf(g, remaining, selected, |remaining|)], selected)
  {
    BestOfIsBest(g, remaining, selected, |remaining|);
  }

  lemma PicksAreDistinct(g: Ground, out: seq<Id>)
    requires PicksBestFrom(g, out, 0)
    ensures Distinct(out) && forall id :: id in out ==> id in IdsOf(g.pool)
  {
    forall i, j | 0 <= i < j < |out| ensures out[i] != out[j] {
      assert PicksBest(g, out, j);
      assert out[i] == out[..j][i];
    }
    forall id | id in out ensures id in IdsOf(g.pool) {
      var r :| 0 <= r < |out| && out[r] == id;
      assert PicksBest(g, out, r);
      var c :| c in g.pool && c.id == out[r];
      var i :| 0 <= i < |g.pool| && g.pool[i] == c;
      assert IdsOf(g.pool)[i] == id;
    }
  }

  // ---------- the output passes its check ----------

  ghost predicate ValidOutput(ordered: seq<Id>, candidates: seq<Candidate>, topK: int) {
    |ordered| == Target(candidates, topK) && Distinct(ordered) && forall id :: id in ordered ==> id in IdsOf(candidates)
  }

  method ValidateRerankOutput(ordered: seq<Id>, candidates: seq<Candidate>, topK: int) returns (ok: bool)
    ensures ok <==> ValidOutput(ordered, candidates, topK)
  {
    if |ordered| != Target(candidates, topK) { return false; }
    var known := set id | id in IdsOf(candidates);
    var seen: set<Id> := {};
    for i := 0 to |ordered|
      invariant seen == set id | id in ordered[..i]
      invariant Distinct(ordered[..i]) && forall id :: id in ordered[..i] ==> id in IdsOf(candidates)
    {
      var id := ordered[i];
      if id in seen || id !in known {
        RefusedId(ordered, i, IdsOf(candidates));
        return false;
      }
      seen := seen + {id};
      assert ordered[..i + 1] == ordered[..i] + [id];
    }
    assert ordered[..|ordered|] == ordered;
    return true;
  }

  lemma RefusedId(ordered: seq<Id>, i: nat, known: seq<Id>)
    requires i < |ordered| && (ordered[i] in ordered[..i] || ordered[i] !in known)
    ensures !Distinct(ordered) || !(forall id :: id in ordered ==> id in known)
  {
    if ordered[i] in ordered[..i] {
      var j :| 0 <= j < i && ordered[..i][j] == ordered[i];
      assert ordered[j] == ordered[i];
    }
  }

  lemma {:induction false} SpilledIs(candidates: seq<Candidate>, pool: seq<Candidate>)
    requires DistinctIds(candidates)
    ensures var out := Spilled(candidates, pool);
            Distinct(out) && forall id :: id in out <==> id in IdsOf(candidates) && id !in IdsOf(pool)
  {
    if candidates != [] {
      SpilledIs(candidates[1..], pool);
      var rest := Spilled(candidates[1..], pool);
      assert IdsOf(candidates) == [candidates[0].id] + IdsOf(candidates[1..]);
      assert candidates[0].id !in IdsOf(candidates[1..]);
    }
  }

  /** When the pool is a prefix, the spill is what follows it. */
  lemma {:induction false} SpilledIsRest(candidates: seq<Candidate>, n: nat)
    requires DistinctIds(candidates) && n <= |candidates|
    ensures Spilled(candidates, candidates[..n]) == IdsOf(candidates[n..])
  {
    var pool, rest := candidates[..n], candidates[n..];
    assert candidates == pool + rest;
    SpilledAppend(pool, rest, pool);
    forall c | c in pool ensures c.id in IdsOf(pool) {
      var i :| 0 <= i < |pool| && pool[i] == c;
      assert IdsOf(pool)[i] == c.id;
    }
    SpilledNone(pool, pool);
    SpilledAll(rest, pool);
  }

  lemma {:induction false} SpilledAppend(a: seq<Candidate>, b: seq<Candidate>, pool: seq<Candidate>)
    ensures Spilled(a + b, pool) == Spilled(a, pool) + Spilled(b, pool)
  {
    if a == [] {
      assert a + b == b;
    } else {
      SpilledAppend(a[1..], b, pool);
      assert (a + b)[1..] == a[1..] + b && (a + b)[0] == a[0];
    }
  }

  lemma {:induction false} SpilledNone(s: seq<Candidate>, pool: seq<Candidate>)
    requires forall c :: c in s ==> c.id in IdsOf(pool)
    ensures Spilled(s, pool) == []
  {
    if s != [] {
      SpilledNone(s[1..], pool);
    }
  }

  lemma {:induction false} SpilledAll(s: seq<Candidate>, pool: seq<Candidate>)
    requires forall c :: c in s ==> c.id !in IdsOf(pool)
    ensures Spilled(s, pool) == IdsOf(s)
  {
    if s != [] {
      SpilledAll(s[1..], pool);
      assert IdsOf(s) == [s[0].id] + IdsOf(s[1..]);
    }
  }

  lemma SelectedFromPool(g: Ground, target: nat)
    requires DistinctIds(g.pool)
    ensures var out := Select(g, g.pool, [], target);
            |out| == (if |g.pool| < target then |g.pool| else target) && Distinct(out) &&
            (forall id :: id in out ==> id in IdsOf(g.pool)) && PicksBestFrom(g, out, 0)
  {
    SelectLength(g, g.pool, [], target);
    SelectPicksBest(g, g.pool, [], target);
    PicksAreDistinct(g, Select(g, g.pool, [], target));
  }

  /** For candidates with distinct ids the output is always accepted. */
  lemma RerankedIsValid(candidates: seq<Candidate>, topK: int, s: Settings, has: set<Id>, sim: (Id, Id) -> real)
    requires DistinctIds(candidates) && Configure(s.lambda, s.poolLimit) == Some(s)
    ensures ValidOutput(Reranked(candidates, topK, s, has, sim), candidates, topK)
  {
    var target, pool := Target(candidates, topK), PoolOf(candidates, s);
    var g := Ground(s.lambda, pool, has, sim);
    SelectedFromPool(g, target);
    PoolIds(candidates, |pool|);
    if |pool| < target {
      SpilledIs(candidates, pool);
      SpilledIsRest(candidates, |pool|);
      Joined(Select(g, pool, [], target), Spilled(candidates, pool), target, IdsOf(pool), IdsOf(candidates));
    }
  }

  lemma PoolIds(candidates: seq<Candidate>, n: nat)
    requires n <= |candidates|
    ensures forall id :: id in IdsOf(candidates[..n]) ==> id in IdsOf(candidates)
  {
    assert IdsOf(candidates[..n]) == IdsOf(candidates)[..n];
  }

  lemma Joined(a: seq<Id>, b: seq<Id>, target: nat, from: seq<Id>, all: seq<Id>)
    requires Distinct(a) && Distinct(b) && |a| < target <= |a| + |b|
    requires forall id :: id in a ==> id in from
    requires forall id :: id in from ==> id in all
    requires forall id :: id in b ==> id in all && id !in from
    ensures var out := Filled(a, b, target);
            |out| == target && Distinct(out) && forall id :: id in out ==> id in all
  {
    var c := FirstOf(b, target - |a|);
    assert forall id :: id in c ==> id in b;
    assert forall i, j :: 0 <= i < |a| && 0 <= j < |c| ==> a[i] in from && c[j] !in from;
  }

  // ---------- how the output depends on top_k ----------

  /** Asking for one more item only adds an item. */
  lemma {:induction false} SelectIsStable(g: Ground, remaining: seq<Candidate>, selected: seq<Id>, target: int)
    requires forall c :: c in remaining ==> c in g.pool
    ensures var less, more := Select(g, remaining, selected, target), Select(g, remaining, selected, target + 1);
            less <= more && (|less| < target ==> more == less) && (|selected| <= target ==> |less| <= target)
    decreases |remaining|
  {
    if remaining != [] && |selected| < target {
      var best := remaining[BestOf(g, remaining, selected, |remaining|)];
      SelectIsStable(g, Without(remaining, best), selected + [best.id], target);
    } else if remaining != [] && |selected| == target {
      var best := remaining[BestOf(g, remaining, selected, |remaining|)];
      var rest, more := Without(remaining, best), selected + [best.id];
      assert Select(g, rest, more, target + 1) == more;
    }
  }

  lemma RerankedIsStable(candidates: seq<Candidate>, topK: int, s: Settings, has: set<Id>, sim: (Id, Id) -> real)
    ensures Reranked(candidates, topK, s, has, sim) <= Reranked(candidates, topK + 1, s, has, sim)
  {
    if Target(candidates, topK + 1) != Target(candidates, topK) {
      OneMoreIsStable(candidates, Target(candidates, topK), s, has, sim);
    }
  }

  lemma OneMoreIsStable(candidates: seq<Candidate>, target: nat, s: Settings, has: set<Id>, sim: (Id, Id) -> real)
    ensures RerankedTo(candidates, target, s, has, sim) <= RerankedTo(candidates, target + 1, s, has, sim)
  {
    var pool := PoolOf(candidates, s);
    var g := Ground(s.lambda, pool, has, sim);
    var less, more := Select(g, pool, [], target), Select(g, pool, [], target + 1);
    SelectIsStable(g, pool, [], target);
    FilledIsStable(less, more, Spilled(candidates, pool), target);
  }

  lemma FilledIsStable(less: seq<Id>, more: seq<Id>, spill: seq<Id>, target: nat)
    requires less <= more && |less| <= target && (|less| < target ==> more == less)
    ensures Filled(less, spill, target) <= Filled(more, spill, target + 1)
  {
  }

  // ---------- relevance alone ----------

  lemma RelevanceOrder(pool: seq<Candidate>, i: nat, j: nat)
    requires i <= j < |pool| && pool[i].score >= pool[j].score
    ensures Relevance(pool, i) >= Relevance(pool, j)
  {
    var lo, hi := Least(pool), Greatest(pool);
    if hi != lo {
      assert lo <= pool[j].score <= hi;
      QuotientOrder(pool[j].score - lo, pool[i].score - lo, hi - lo);
    }
  }

  lemma QuotientOrder(a: real, b: real, c: real)
    requires a <= b && c > 0.0
    ensures a / c <= b / c
  {
  }

  ghost predicate ScoreSorted(s: seq<Candidate>) {
    forall i, j :: 0 <= i < j < |s| ==> s[i].score >= s[j].score
  }

  lemma PlaceOf(pool: seq<Candidate>, i: nat)
    requires DistinctIds(pool) && i < |pool|
    ensures LastIndex(pool, pool[i].id) == i
  {
  }

  /** With lambda 1 the next of a score-sorted pool beats all that follow. */
  lemma {:induction false} NextIsBest(g: Ground, j: nat, selected: seq<Id>, n: nat)
    requires g.lambda == 1.0 && DistinctIds(g.pool) && ScoreSorted(g.pool) && j < |g.pool| && 0 < n <= |g.pool| - j
    ensures BestOf(g, g.pool[j..], selected, n) == 0
  {
    if n > 1 {
      NextIsBest(g, j, selected, n - 1);
      LaterDoesNotBeat(g, j, j + n - 1, selected);
    }
  }

  lemma LaterDoesNotBeat(g: Ground, i: nat, j: nat, selected: seq<Id>)
    requires g.lambda == 1.0 && DistinctIds(g.pool) && ScoreSorted(g.pool) && i < j < |g.pool|
    ensures !Beats(g, g.pool[j], g.pool[i], selected)
  {
    PlaceOf(g.pool, i);
    PlaceOf(g.pool, j);
    RelevanceOrder(g.pool, i, j);
    RelevanceAlone(g, g.pool[i], selected);
    RelevanceAlone(g, g.pool[j], selected);
  }

  lemma RelevanceAlone(g: Ground, c: Candidate, selected: seq<Id>)
    requires g.lambda == 1.0 && c in g.pool
    ensures Objective(g, c, selected) == Relevance(g.pool, LastIndex(g.pool, c.id))
  {
    assert (1.0 - g.lambda) * MaxSim(g, c.id, selected) == 0.0;
  }

  lemma {:induction false} SelectInOrder(g: Ground, j: nat, target: nat)
    requires g.lambda == 1.0 && DistinctIds(g.pool) && ScoreSorted(g.pool) && j <= |g.pool| && j <= target
    ensures Select(g, g.pool[j..], IdsOf(g.pool[..j]), target) ==
            IdsOf(if target < |g.pool| then g.pool[..target] else g.pool)
    decreases |g.pool| - j
  {
    if j == |g.pool| {
      assert g.pool[..j] == g.pool;
    } else if j < target {
      SelectNext(g, j, target);
      SelectInOrder(g, j + 1, target);
    }
  }

  lemma SelectNext(g: Ground, j: nat, target: nat)
    requires g.lambda == 1.0 && DistinctIds(g.pool) && ScoreSorted(g.pool) && j < |g.pool| && j < target
    ensures Select(g, g.pool[j..], IdsOf(g.pool[..j]), target) == Select(g, g.pool[j + 1..], IdsOf(g.pool[..j + 1]), target)
  {
    var remaining, selected := g.pool[j..], IdsOf(g.pool[..j]);
    NextIsBest(g, j, selected, |remaining|);
    SelectStep(g, remaining, selected, target);
    assert Without(remaining, remaining[0]) == g.pool[j + 1..];
    assert IdsOf(g.pool[..j + 1]) == selected + [remaining[0].id];
  }

  /** With lambda 1 score-sorted candidates keep the order of the first stage. */
  lemma LambdaOneKeepsOrder(candidates: seq<Candidate>, topK: int, s: Settings, has: set<Id>, sim: (Id, Id) -> real)
    requires s.lambda == 1.0 && Configure(s.lambda, s.poolLimit) == Some(s) && DistinctIds(candidates) && ScoreSorted(candidates)
    ensures Reranked(candidates, topK, s, has, sim) == IdsOf(candidates[..Target(candidates, topK)])
  {
    var target, pool := Target(candidates, topK), PoolOf(candidates, s);
    var g := Ground(s.lambda, pool, has, sim);
    assert pool[0..] == pool && IdsOf(pool[..0]) == [];
    SelectInOrder(g, 0, target);
    SpilledIsRest(candidates, |pool|);
    FilledInOrder(candidates, |pool|, target);
  }

  lemma FilledInOrder(candidates: seq<Candidate>, n: nat, target: nat)
    requires n <= |candidates| && target <= |candidates|
    ensures Filled(IdsOf(if target < n then candidates[..n][..target] else candidates[..n]), IdsOf(candidates[n..]), target) ==
            IdsOf(candidates[..target])
  {
    if target < n {
      assert candidates[..n][..target] == candidates[..target];
    } else {
      assert IdsOf(candidates[..n]) + FirstOf(IdsOf(candidates[n..]), target - n) == IdsOf(candidates[..target]);
    }
  }

  // ---------- the program ----------

  /** The running maximum kept for every remaining candidate is the naive one. */
  ghost predicate Cached(g: Ground, maxSim: map<Id, real>, remaining: seq<Candidate>, selected: seq<Id>) {
    forall c :: c in remaining ==> c.id in maxSim && maxSim[c.id] == MaxSim(g, c.id, selected)
  }

  method OrderOf(pool: seq<Candidate>) returns (order: map<Id, nat>)
    ensures forall c :: c in pool ==> c.id in order && order[c.id] == LastIndex(pool, c.id)
  {
    order := map[];
    for i := 0 to |pool|
      invariant forall c :: c in pool[..i] ==> c.id in order && order[c.id] == LastIndex(pool[..i], c.id)
    {
      order := order[pool[i].id := i];
      assert pool[..i + 1][..i] == pool[..i];
    }
    assert pool[..|pool|] == pool;
  }

  /** What the scan finds prepared. */
  ghost predicate Prepared(g: Ground, rel: seq<real>, order: map<Id, nat>, maxSim: map<Id, real>,
                           remaining: seq<Candidate>, selected: seq<Id>)
  {
    rel == Relevances(g.pool) && Cached(g, maxSim, remaining, selected) &&
    (forall c :: c in g.pool ==> c.id in order && order[c.id] == LastIndex(g.pool, c.id)) &&
    forall c :: c in remaining ==> c in g.pool
  }

  method CachedObjective(g: Ground, rel: seq<real>, order: map<Id, nat>, maxSim: map<Id, real>,
                         remaining: seq<Candidate>, i: nat, ghost selected: seq<Id>)
    returns (mmr: real, place: nat)
    requires i < |remaining| && Prepared(g, rel, order, maxSim, remaining, selected)
    ensures KeyIs(g, remaining[i], selected, mmr, place)
  {
    var c := remaining[i];
    place := order[c.id];
    mmr := g.lambda * rel[place] - (1.0 - g.lambda) * maxSim[c.id];
  }

  /** The scan for the best key, on the cached maxima. */
  method FindBest(g: Ground, rel: seq<real>, order: map<Id, nat>, maxSim: map<Id, real>, remaining: seq<Candidate>,
                  ghost selected: seq<Id>)
    returns (best: Candidate)
    requires remaining != [] && Prepared(g, rel, order, maxSim, remaining, selected)
    ensures best == remaining[BestOf(g, remaining, selected, |remaining|)]
  {
    var b := 0;
    var bestMmr, bestPlace := CachedObjective(g, rel, order, maxSim, remaining, 0, selected);
    for i := 1 to |remaining|
      invariant b == BestOf(g, remaining, selected, i)
      invariant KeyIs(g, remaining[b], selected, bestMmr, bestPlace)
    {
      var mmr, place := CachedObjective(g, rel, order, maxSim, remaining, i, selected);
      BestStep(g, remaining, selected, i, b, mmr, place, bestMmr, bestPlace);
      if mmr > bestMmr || (mmr == bestMmr && place < bestPlace) {
        b, bestMmr, bestPlace := i, mmr, place;
      }
    }
    best := remaining[b];
  }

  ghost predicate KeyIs(g: Ground, c: Candidate, selected: seq<Id>, mmr: real, place: int) {
    c in g.pool && mmr == Objective(g, c, selected) && place == LastIndex(g.pool, c.id)
  }

  lemma BestStep(g: Ground, remaining: seq<Candidate>, selected: seq<Id>, i: nat, b: nat,
                 mmr: real, place: int, bestMmr: real, bestPlace: int)
    requires 0 < i < |remaining| && forall c :: c in remaining ==> c in g.pool
    requires b == BestOf(g, remaining, selected, i)
    requires KeyIs(g, remaining[i], selected, mmr, place) && KeyIs(g, remaining[b], selected, bestMmr, bestPlace)
    ensures BestOf(g, remaining, selected, i + 1) ==
            if mmr > bestMmr || (mmr == bestMmr && place < bestPlace) then i else b
  {
  }

  /** Only the similarity to the newly selected item is computed. */
  method Refresh(g: Ground, maxSim0: map<Id, real>, remaining: seq<Candidate>, newest: Id, ghost selected: seq<Id>)
    returns (maxSim: map<Id, real>)
    requires Cached(g, maxSim0, remaining, selected)
    ensures Cached(g, maxSim, remaining, selected + [newest])
  {
    maxSim := maxSim0;
    ghost var more := selected + [newest];
    assert more[..|selected|] == selected;
    if newest in g.has {
      for i := 0 to |remaining|
        invariant forall c :: c in remaining ==> c.id in maxSim
        invariant forall c :: c in remaining ==>
          maxSim[c.id] == MaxSim(g, c.id, if c.id in IdsOf(remaining[..i]) then more else selected)
      {
        var c := remaining[i];
        assert IdsOf(remaining[..i + 1]) == IdsOf(remaining[..i]) + [c.id];
        MaxSimIsGreatest(g, c.id, more);
        if c.id in g.has {
          var sim := g.sim(c.id, newest);
          if sim > maxSim[c.id] { maxSim := maxSim[c.id := sim]; }
        }
      }
      assert remaining[..|remaining|] == remaining;
      forall c | c in remaining ensures c.id in IdsOf(remaining) {
        var i :| 0 <= i < |remaining| && remaining[i] == c;
        assert IdsOf(remaining)[i] == c.id;
      }
    } else {
      forall c | c in remaining ensures MaxSim(g, c.id, more) == MaxSim(g, c.id, selected) {
        MaxSimIsGreatest(g, c.id, selected);
      }
    }
  }

  /** The selection loop. */
  method SelectLoop(g: Ground, target: nat) returns (selected: seq<Id>)
    ensures selected == Select(g, g.pool, [], target)
  {
    var rel := Relevances(g.pool);
    var order := OrderOf(g.pool);
    var maxSim := map id | id in IdsOf(g.pool) :: 0.0;
    var remaining := g.pool;
    selected := [];
    StartCached(g, maxSim);
    while remaining != [] && |selected| < target
      invariant (forall c :: c in remaining ==> c in g.pool) && Cached(g, maxSim, remaining, selected)
      invariant Select(g, remaining, selected, target) == Select(g, g.pool, [], target)
      decreases |remaining|
    {
      var best := FindBest(g, rel, order, maxSim, remaining, selected);
      remaining := Without(remaining, best);
      maxSim := Refresh(g, maxSim, remaining, best.id, selected);
      selected := selected + [best.id];
    }
  }

  lemma StartCached(g: Ground, maxSim: map<Id, real>)
    requires maxSim == map id | id in IdsOf(g.pool) :: 0.0
    ensures Cached(g, maxSim, g.pool, [])
  {
    forall c | c in g.pool ensures c.id in maxSim {
      var i :| 0 <= i < |g.pool| && g.pool[i] == c;
      assert IdsOf(g.pool)[i] == c.id;
    }
  }

  /** MMRReranker.rerank */
  method Rerank(candidates: seq<Candidate>, topK: int, s: Settings, has: set<Id>, sim: (Id, Id) -> real)
    returns (ordered: seq<Id>)
    ensures ordered == Reranked(candidates, topK, s, has, sim)
  {
    var target := Target(candidates, topK);
    if target == 0 { return []; }
    var pool := PoolOf(candidates, s);
    ordered := SelectLoop(Ground(s.lambda, pool, has, sim), target);
    if |ordered| < target {
      var spilled := Spilled(candidates, pool);
      ordered := ordered + FirstOf(spilled, target - |ordered|);
    }
  }
}
