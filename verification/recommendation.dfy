/**
 * `BoulderingRecommendationAgent` of `bouldering_agent.py`: the preference filters,
 * the base score, the ranked recommendation list and the area statistics, all over
 * the proximity query of the route store.
 */
module Recommendation {
  import opened Wrappers
  import opened Boulders
  import SeqOps
  import StableSort

  // ---------------------------------------------------------------------------
  // Preference filter

  /** `all(hold in b['holds'] for hold in preferred_holds)` */
  predicate HasAllHolds(c: Candidate, holds: seq<string>) {
    forall h :: h in holds ==> h in c.route.holds
  }

  function ApproachTest(maxApproach: real): Candidate -> bool {
    (c: Candidate) => c.route.approachDistance <= maxApproach
  }

  function GradeTest(grades: seq<string>): Candidate -> bool {
    (c: Candidate) => c.route.grade in grades
  }

  function HoldsTest(holds: seq<string>): Candidate -> bool {
    (c: Candidate) => HasAllHolds(c, holds)
  }

  /** The approach filter, always applied. */
  function FilterByApproach(cs: seq<Candidate>, maxApproach: real): (r: seq<Candidate>)
    ensures |r| <= |cs|
  {
    SeqOps.Keep(cs, ApproachTest(maxApproach))
  }

  /** The grade filter, applied only when the grade list is non-empty (`if preferred_grades:`). */
  function FilterByGrade(cs: seq<Candidate>, grades: seq<string>): (r: seq<Candidate>)
    ensures |r| <= |cs|
  {
    if grades == [] then cs else SeqOps.Keep(cs, GradeTest(grades))
  }

  /** The hold filter, applied only when the hold list is non-empty (`if preferred_holds:`). */
  function FilterByHolds(cs: seq<Candidate>, holds: seq<string>): (r: seq<Candidate>)
    ensures |r| <= |cs|
  {
    if holds == [] then cs else SeqOps.Keep(cs, HoldsTest(holds))
  }

  /** The three filters of `recommend_routes`, in the source's order. */
  function ApplyPreferences(cs: seq<Candidate>, maxApproach: real, grades: seq<string>, holds: seq<string>): (r: seq<Candidate>)
    ensures |r| <= |cs|
  {
    FilterByHolds(FilterByGrade(FilterByApproach(cs, maxApproach), grades), holds)
  }

  /** A candidate passes every filter that applies; an empty list imposes no constraint. */
  predicate Admissible(c: Candidate, maxApproach: real, grades: seq<string>, holds: seq<string>) {
    && c.route.approachDistance <= maxApproach
    && (grades != [] ==> c.route.grade in grades)
    && (holds != [] ==> HasAllHolds(c, holds))
  }

  function AdmissibleTest(maxApproach: real, grades: seq<string>, holds: seq<string>): Candidate -> bool {
    (c: Candidate) => Admissible(c, maxApproach, grades, holds)
  }

  /**
   * The three successive filters are one filter by the conjunction of their conditions:
   * the survivors are exactly the admissible candidates, in their input order (so the
   * order in which the filters are applied does not matter).
   */
  lemma PreferencesAreOneFilter(cs: seq<Candidate>, maxApproach: real, grades: seq<string>, holds: seq<string>)
    ensures ApplyPreferences(cs, maxApproach, grades, holds) == SeqOps.Keep(cs, AdmissibleTest(maxApproach, grades, holds))
  {
    var pa := ApproachTest(maxApproach);
    var pg := GradeTest(grades);
    var ph := HoldsTest(holds);
    var all := AdmissibleTest(maxApproach, grades, holds);
    var pag: Candidate -> bool := c => pa(c) && (grades != [] ==> pg(c));
    if grades != [] {
      SeqOps.KeepKeep(cs, pa, pg, pag);
    } else {
      SeqOps.KeepSamePredicate(cs, pa, pag);
    }
    assert FilterByGrade(FilterByApproach(cs, maxApproach), grades) == SeqOps.Keep(cs, pag);
    if holds != [] {
      SeqOps.KeepKeep(cs, pag, ph, all);
    } else {
      SeqOps.KeepSamePredicate(cs, pag, all);
    }
  }

  /** Filter conditions: a candidate survives exactly when it is in the input and admissible. */
  lemma PreferenceFilterConditions(cs: seq<Candidate>, maxApproach: real, grades: seq<string>, holds: seq<string>, c: Candidate)
    ensures c in ApplyPreferences(cs, maxApproach, grades, holds) <==> c in cs && Admissible(c, maxApproach, grades, holds)
    ensures SeqOps.IsSubsequence(ApplyPreferences(cs, maxApproach, grades, holds), cs)
  {
    PreferencesAreOneFilter(cs, maxApproach, grades, holds);
    SeqOps.KeepIsSubsequence(cs, AdmissibleTest(maxApproach, grades, holds));
  }

  /** Applying the preference filter twice gives the same result as applying it once. */
  lemma PreferencesIdempotent(cs: seq<Candidate>, maxApproach: real, grades: seq<string>, holds: seq<string>)
    ensures ApplyPreferences(ApplyPreferences(cs, maxApproach, grades, holds), maxApproach, grades, holds)
         == ApplyPreferences(cs, maxApproach, grades, holds)
  {
    var once := ApplyPreferences(cs, maxApproach, grades, holds);
    PreferencesAreOneFilter(cs, maxApproach, grades, holds);
    PreferencesAreOneFilter(once, maxApproach, grades, holds);
    SeqOps.KeepIdempotent(cs, AdmissibleTest(maxApproach, grades, holds));
  }

  /** Hold filtering is conjunctive: lacking one requested hold excludes a route. */
  lemma HoldFilterIsConjunctive(c: Candidate)
    requires c.route.holds == ["crimps", "slopers"]
    ensures !Admissible(c, c.route.approachDistance, [], ["crimps", "jugs"])
  {
    assert "jugs" != "crimps" && "jugs" != "slopers";
    assert "jugs" !in c.route.holds;
  }

  // ---------------------------------------------------------------------------
  // Scoring

  const RatingWeight: real := 20.0
  const DistanceWeight: real := 0.5
  const ApproachWeight: real := 2.0

  /** `_calculate_base_score`: reward the rating, penalise distance and approach. */
  function BaseScore(c: Candidate): real {
    c.route.rating * RatingWeight - c.distance * DistanceWeight - c.route.approachDistance * ApproachWeight
  }

  /** `_calculate_base_score` as the source computes it, by accumulating into `score`. */
  method CalculateBaseScore(c: Candidate) returns (score: real)
    ensures score == c.route.rating * RatingWeight - c.distance * DistanceWeight - c.route.approachDistance * ApproachWeight
  {
    score := 0.0;
    score := score + c.route.rating * RatingWeight;
    var distance := c.distance;
    score := score - distance * DistanceWeight;
    var approach := c.route.approachDistance;
    score := score - approach * ApproachWeight;
  }

  /** The score is non-decreasing in rating and non-increasing in distance and approach. */
  lemma ScoreMonotone(a: Candidate, b: Candidate)
    requires a.route.rating >= b.route.rating
    requires a.distance <= b.distance
    requires a.route.approachDistance <= b.route.approachDistance
    ensures BaseScore(a) >= BaseScore(b)
  {
  }

  // ---------------------------------------------------------------------------
  // Recommendation

  /** A candidate with `recommendation_score` attached. */
  datatype ScoredRoute = ScoredRoute(candidate: Candidate, recommendationScore: real)

  /** The scoring loop: every candidate, in order, with its base score. */
  function Scored(cs: seq<Candidate>): (r: seq<ScoredRoute>)
    ensures |r| == |cs|
  {
    seq(|cs|, i requires 0 <= i < |cs| => ScoredRoute(cs[i], BaseScore(cs[i])))
  }

  /** Sorting descending by score is stable ascending sorting by the negated score. */
  function NegatedScore(r: ScoredRoute): real {
    -r.recommendationScore
  }

  /** The candidates that survive the preference filter, in proximity order. */
  function Survivors(rows: seq<StoredRoute>, dist: DistanceFn, center: Point, grades: seq<string>, holds: seq<string>,
                     maxApproach: real, radius: real): seq<Candidate>
  {
    ApplyPreferences(Near(rows, center, radius, dist), maxApproach, grades, holds)
  }

  /** All survivors, scored and sorted by descending score (stable). */
  function Ranked(rows: seq<StoredRoute>, dist: DistanceFn, center: Point, grades: seq<string>, holds: seq<string>,
                  maxApproach: real, radius: real): seq<ScoredRoute>
  {
    StableSort.SortBy(Scored(Survivors(rows, dist, center, grades, holds, maxApproach, radius)), NegatedScore)
  }

  /** The result of `recommend_routes`: the ranking cut by Python's `[:limit]`. */
  function Recommend(rows: seq<StoredRoute>, dist: DistanceFn, center: Point, grades: seq<string>, holds: seq<string>,
                     maxApproach: real, radius: real, limit: int): seq<ScoredRoute>
  {
    SeqOps.Head(Ranked(rows, dist, center, grades, holds, maxApproach, radius), limit)
  }

  /** The recommendation list is sorted descending by score. */
  lemma RecommendSortedDescending(rows: seq<StoredRoute>, dist: DistanceFn, center: Point, grades: seq<string>,
                                  holds: seq<string>, maxApproach: real, radius: real, limit: int)
    ensures var r := Recommend(rows, dist, center, grades, holds, maxApproach, radius, limit);
      forall i, j :: 0 <= i < j < |r| ==> r[i].recommendationScore >= r[j].recommendationScore
  {
    var scored := Scored(Survivors(rows, dist, center, grades, holds, maxApproach, radius));
    StableSort.SortByIsStableSort(scored, NegatedScore);
  }

  /**
   * Length: for a non-negative limit, min(limit, number of survivors); a negative limit
   * drops that many entries from the end, as Python slicing does.
   */
  lemma RecommendLength(rows: seq<StoredRoute>, dist: DistanceFn, center: Point, grades: seq<string>,
                        holds: seq<string>, maxApproach: real, radius: real, limit: int)
    ensures var n := |Survivors(rows, dist, center, grades, holds, maxApproach, radius)|;
            var r := Recommend(rows, dist, center, grades, holds, maxApproach, radius, limit);
      && (0 <= limit ==> |r| == if limit < n then limit else n)
      && (limit < 0 ==> |r| == if n + limit < 0 then 0 else n + limit)
  {
    var scored := Scored(Survivors(rows, dist, center, grades, holds, maxApproach, radius));
    StableSort.SortByIsStableSort(scored, NegatedScore);
  }

  /**
   * Every recommendation is a route of the proximity result that passes the filters,
   * carrying its base score.
   */
  lemma RecommendSound(rows: seq<StoredRoute>, dist: DistanceFn, center: Point, grades: seq<string>,
                       holds: seq<string>, maxApproach: real, radius: real, limit: int)
    ensures forall x :: x in Recommend(rows, dist, center, grades, holds, maxApproach, radius, limit) ==>
      && x.candidate in Near(rows, center, radius, dist)
      && Admissible(x.candidate, maxApproach, grades, holds)
      && x.recommendationScore == BaseScore(x.candidate)
  {
    var near := Near(rows, center, radius, dist);
    var survivors := Survivors(rows, dist, center, grades, holds, maxApproach, radius);
    var scored := Scored(survivors);
    var ranked := Ranked(rows, dist, center, grades, holds, maxApproach, radius);
    StableSort.SortByIsStableSort(scored, NegatedScore);
    forall x | x in Recommend(rows, dist, center, grades, holds, maxApproach, radius, limit)
      ensures x.candidate in near && Admissible(x.candidate, maxApproach, grades, holds)
      ensures x.recommendationScore == BaseScore(x.candidate)
    {
      assert x in ranked;
      assert x in multiset(scored);
      var i :| 0 <= i < |scored| && scored[i] == x;
      assert x.candidate == survivors[i];
      PreferenceFilterConditions(near, maxApproach, grades, holds, x.candidate);
    }
  }

  /**
   * Stability: for every score, the recommendations with that score are, in order, a
   * prefix of the survivors with that score in proximity (distance) order.
   */
  lemma RecommendStable(rows: seq<StoredRoute>, dist: DistanceFn, center: Point, grades: seq<string>,
                        holds: seq<string>, maxApproach: real, radius: real, limit: int, k: real)
    ensures var scored := Scored(Survivors(rows, dist, center, grades, holds, maxApproach, radius));
            var r := Recommend(rows, dist, center, grades, holds, maxApproach, radius, limit);
      StableSort.WithKey(r, NegatedScore, -k) <= StableSort.WithKey(scored, NegatedScore, -k)
  {
    var scored := Scored(Survivors(rows, dist, center, grades, holds, maxApproach, radius));
    var ranked := Ranked(rows, dist, center, grades, holds, maxApproach, radius);
    var r := Recommend(rows, dist, center, grades, holds, maxApproach, radius, limit);
    StableSort.SortByIsStableSort(scored, NegatedScore);
    assert StableSort.WithKey(ranked, NegatedScore, -k) == StableSort.WithKey(scored, NegatedScore, -k);
    assert r == ranked[..|r|];
    StableSort.WithKeyPrefix(ranked, |r|, NegatedScore, -k);
  }

  /**
   * Truncation keeps the best: a survivor left out of the list scores no higher than
   * any route in it, and nothing is left out when the limit covers every survivor.
   */
  lemma RecommendKeepsBest(rows: seq<StoredRoute>, dist: DistanceFn, center: Point, grades: seq<string>,
                           holds: seq<string>, maxApproach: real, radius: real, limit: int)
    ensures var scored := Scored(Survivors(rows, dist, center, grades, holds, maxApproach, radius));
            var r := Recommend(rows, dist, center, grades, holds, maxApproach, radius, limit);
      && (forall x, y :: x in scored && x !in r && y in r ==> x.recommendationScore <= y.recommendationScore)
      && (|scored| <= limit ==> multiset(r) == multiset(scored))
  {
    var scored := Scored(Survivors(rows, dist, center, grades, holds, maxApproach, radius));
    var ranked := Ranked(rows, dist, center, grades, holds, maxApproach, radius);
    var r := Recommend(rows, dist, center, grades, holds, maxApproach, radius, limit);
    StableSort.SortByIsStableSort(scored, NegatedScore);
    assert r == ranked[..|r|];
    forall x, y | x in scored && x !in r && y in r
      ensures x.recommendationScore <= y.recommendationScore
    {
      assert x in multiset(ranked);
      var j :| 0 <= j < |ranked| && ranked[j] == x;
      var i :| 0 <= i < |r| && r[i] == y;
      forall k | 0 <= k < |r| ensures ranked[k] != x {
        assert ranked[k] == r[k];
      }
      assert |r| <= j;
      assert ranked[i] == y;
      assert NegatedScore(ranked[i]) <= NegatedScore(ranked[j]);
    }
    if |scored| <= limit {
      assert r == ranked;
    }
  }

  // ---------------------------------------------------------------------------
  // Area statistics

  /** The summary of `get_area_statistics`; `NoRoutes` is `{"total_routes": 0}`. */
  datatype AreaStatistics =
    | NoRoutes
    | Summary(totalRoutes: nat, gradeDistribution: map<string, nat>,
              averageRating: Option<real>,   // None: the NaN of a mean over no rated route
              averageApproach: real)

  /** `[b['grade'] for b in boulders if b['grade']]` */
  function GradesOf(cs: seq<Candidate>): (gs: seq<string>)
    ensures |gs| <= |cs|
    ensures "" !in gs
  {
    if cs == [] then []
    else (if cs[0].route.grade != "" then [cs[0].route.grade] else []) + GradesOf(cs[1..])
  }

  /** How many of the candidates have grade `g`. */
  function GradeCount(cs: seq<Candidate>, g: string): (n: nat)
    ensures n <= |cs|
  {
    if cs == [] then 0 else (if cs[0].route.grade == g then 1 else 0) + GradeCount(cs[1..], g)
  }

  lemma {:induction false} GradesOfCount(cs: seq<Candidate>, g: string)
    requires g != ""
    ensures multiset(GradesOf(cs))[g] == GradeCount(cs, g)
  {
    if cs != [] {
      GradesOfCount(cs[1..], g);
    }
  }

  /** `[b['rating'] for b in boulders if b['rating']]` */
  function RatingsOf(cs: seq<Candidate>): (rs: seq<real>)
    ensures |rs| <= |cs|
    ensures forall x :: x in rs ==> x != 0.0 && exists c :: c in cs && c.route.rating == x
    ensures forall c :: c in cs && c.route.rating != 0.0 ==> c.route.rating in rs
  {
    if cs == [] then []
    else (if cs[0].route.rating != 0.0 then [cs[0].route.rating] else []) + RatingsOf(cs[1..])
  }

  /** How many of the candidates have rating `x`. */
  function RatingCount(cs: seq<Candidate>, x: real): (n: nat)
    ensures n <= |cs|
  {
    if cs == [] then 0 else (if cs[0].route.rating == x then 1 else 0) + RatingCount(cs[1..], x)
  }

  /** Each non-zero rating occurs in the rating list as often as among the routes. */
  lemma {:induction false} RatingsOfCount(cs: seq<Candidate>, x: real)
    requires x != 0.0
    ensures multiset(RatingsOf(cs))[x] == RatingCount(cs, x)
  {
    if cs != [] {
      RatingsOfCount(cs[1..], x);
    }
  }

  /** `[b['approach_distance'] for b in boulders]` */
  function ApproachesOf(cs: seq<Candidate>): (xs: seq<real>)
    ensures |xs| == |cs|
    ensures forall i :: 0 <= i < |cs| ==> xs[i] == cs[i].route.approachDistance
  {
    if cs == [] then [] else [cs[0].route.approachDistance] + ApproachesOf(cs[1..])
  }

  function Sum(xs: seq<real>): real {
    if xs == [] then 0.0 else xs[0] + Sum(xs[1..])
  }

  /** `np.mean` without the rounding to two places. */
  function Mean(xs: seq<real>): real
    requires xs != []
  {
    Sum(xs) / (|xs| as real)
  }

  lemma {:induction false} SumAppend(xs: seq<real>, ys: seq<real>)
    ensures Sum(xs + ys) == Sum(xs) + Sum(ys)
  {
    if xs == [] {
      assert xs + ys == ys;
    } else {
      assert (xs + ys)[1..] == xs[1..] + ys;
      SumAppend(xs[1..], ys);
    }
  }

  /** Taking out the element at `k` takes its value out of the sum. */
  lemma SumRemove(xs: seq<real>, k: nat)
    requires k < |xs|
    ensures Sum(xs) == xs[k] + Sum(xs[..k] + xs[k + 1..])
  {
    var front, back := xs[..k], xs[k + 1..];
    var tail := [xs[k]] + back;
    assert xs == front + tail;
    assert tail[1..] == back;
    assert Sum(tail) == xs[k] + Sum(back);
    SumAppend(front, tail);
    SumAppend(front, back);
  }

  /** The sum, and so `np.mean`, depends only on how often each value occurs. */
  lemma {:induction false} SumPermutation(xs: seq<real>, ys: seq<real>)
    requires multiset(xs) == multiset(ys)
    ensures Sum(xs) == Sum(ys)
  {
    if xs == [] {
      assert |ys| == |multiset(ys)| == 0;
    } else {
      var x := xs[0];
      assert x in multiset(ys);
      var k :| 0 <= k < |ys| && ys[k] == x;
      var rest := ys[..k] + ys[k + 1..];
      assert ys == ys[..k] + [x] + ys[k + 1..];
      assert multiset(rest) == multiset(ys) - multiset{x};
      assert xs == [x] + xs[1..];
      assert multiset(xs[1..]) == multiset(xs) - multiset{x};
      SumPermutation(xs[1..], rest);
      SumRemove(ys, k);
    }
  }

  lemma {:induction false} SumBounds(xs: seq<real>, lo: real, hi: real)
    requires forall i :: 0 <= i < |xs| ==> lo <= xs[i] <= hi
    ensures (|xs| as real) * lo <= Sum(xs) <= (|xs| as real) * hi
  {
    if xs != [] {
      SumBounds(xs[1..], lo, hi);
    }
  }

  /** A mean lies between any lower and upper bound of its values. */
  lemma MeanBounds(xs: seq<real>, lo: real, hi: real)
    requires xs != []
    requires forall i :: 0 <= i < |xs| ==> lo <= xs[i] <= hi
    ensures lo <= Mean(xs) <= hi
  {
    SumBounds(xs, lo, hi);
    var n := |xs| as real;
    assert Mean(xs) * n == Sum(xs);
  }

  /**
   * The mean rating is fixed by the rating counts: any list holding each non-zero
   * rating as often as the nearby routes do has the same mean as `RatingsOf`.
   */
  lemma AverageRatingByCounts(near: seq<Candidate>, rs: seq<real>)
    requires RatingsOf(near) != []
    requires forall x :: x in rs ==> x != 0.0
    requires forall x :: x != 0.0 ==> multiset(rs)[x] == RatingCount(near, x)
    ensures rs != [] && Mean(rs) == Mean(RatingsOf(near))
  {
    var ratings := RatingsOf(near);
    forall x ensures multiset(rs)[x] == multiset(ratings)[x] {
      if x == 0.0 {
        assert x !in rs && x !in ratings;
      } else {
        RatingsOfCount(near, x);
      }
    }
    assert multiset(rs) == multiset(ratings);
    assert |rs| == |multiset(rs)| == |multiset(ratings)| == |ratings|;
    SumPermutation(rs, ratings);
  }

  /** `average_approach` lies between the shortest and longest approach of the nearby routes. */
  lemma AverageApproachBetween(near: seq<Candidate>, lo: real, hi: real)
    requires near != []
    requires forall c :: c in near ==> lo <= c.route.approachDistance <= hi
    ensures lo <= Mean(ApproachesOf(near)) <= hi
  {
    var xs := ApproachesOf(near);
    forall i | 0 <= i < |xs| ensures lo <= xs[i] <= hi {
      assert near[i] in near;
    }
    MeanBounds(xs, lo, hi);
  }

  /**
   * `average_rating`, when some route is rated, lies within any bounds of the ratings
   * of the rated routes; unrated routes (rating 0.0) are not averaged and need no bound.
   */
  lemma AverageRatingBetween(near: seq<Candidate>, lo: real, hi: real)
    requires RatingsOf(near) != []
    requires forall c :: c in near && c.route.rating != 0.0 ==> lo <= c.route.rating <= hi
    ensures lo <= Mean(RatingsOf(near)) <= hi
  {
    var rs := RatingsOf(near);
    forall i | 0 <= i < |rs| ensures lo <= rs[i] <= hi {
      assert rs[i] in rs;
    }
    MeanBounds(rs, lo, hi);
  }


  /** The counts of `m` summed along the key listing `keys`. */
  function SumAlong(m: map<string, nat>, keys: seq<string>): nat
    requires forall i :: 0 <= i < |keys| ==> keys[i] in m
  {
    if keys == [] then 0 else SumAlong(m, keys[..|keys| - 1]) + m[keys[|keys| - 1]]
  }

  /** The occurrences in `gs` of each of `keys`, summed. */
  function OccurrencesAlong(gs: seq<string>, keys: seq<string>): nat {
    if keys == [] then 0 else OccurrencesAlong(gs, keys[..|keys| - 1]) + multiset(gs)[keys[|keys| - 1]]
  }

  lemma {:induction false} OccurrencesAlongEmpty(keys: seq<string>)
    ensures OccurrencesAlong([], keys) == 0
  {
    if keys != [] {
      OccurrencesAlongEmpty(keys[..|keys| - 1]);
    }
  }

  lemma {:induction false} OccurrencesAlongAppend(gs: seq<string>, x: string, keys: seq<string>)
    requires SeqOps.Distinct(keys)
    ensures OccurrencesAlong(gs + [x], keys) == OccurrencesAlong(gs, keys) + (if x in keys then 1 else 0)
  {
    if keys != [] {
      var front := keys[..|keys| - 1];
      assert SeqOps.Distinct(front);
      OccurrencesAlongAppend(gs, x, front);
      var last := keys[|keys| - 1];
      assert multiset(gs + [x]) == multiset(gs) + multiset{x};
      assert multiset(gs + [x])[last] == multiset(gs)[last] + (if x == last then 1 else 0);
      assert x in keys <==> x in front || x == keys[|keys| - 1] by {
        assert keys == front + [keys[|keys| - 1]];
      }
      if x in front {
        var j :| 0 <= j < |front| && front[j] == x;
        assert keys[j] == x;
      }
    }
  }

  /** Summing the occurrences over a listing of every distinct value counts each element once. */
  lemma {:induction false} OccurrencesAlongAll(gs: seq<string>, keys: seq<string>)
    requires SeqOps.Distinct(keys)
    requires forall g :: g in gs ==> g in keys
    ensures OccurrencesAlong(gs, keys) == |gs|
  {
    if gs == [] {
      OccurrencesAlongEmpty(keys);
    } else {
      var front := gs[..|gs| - 1];
      assert gs == front + [gs[|gs| - 1]];
      OccurrencesAlongAll(front, keys);
      OccurrencesAlongAppend(front, gs[|gs| - 1], keys);
    }
  }

  lemma {:induction false} SumAlongCounts(m: map<string, nat>, gs: seq<string>, keys: seq<string>)
    requires forall i :: 0 <= i < |keys| ==> keys[i] in m && m[keys[i]] == multiset(gs)[keys[i]]
    ensures SumAlong(m, keys) == OccurrencesAlong(gs, keys)
  {
    if keys != [] {
      SumAlongCounts(m, gs, keys[..|keys| - 1]);
    }
  }

  /**
   * A histogram of `gs` sums to `|gs|`: along any listing of its keys without repetition,
   * the counts add up to the number of values counted.
   */
  lemma HistogramTotal(m: map<string, nat>, gs: seq<string>, keys: seq<string>)
    requires forall g :: g in m <==> g in gs
    requires forall g :: g in m ==> m[g] == multiset(gs)[g]
    requires SeqOps.Distinct(keys) && forall g :: g in keys <==> g in m
    ensures SumAlong(m, keys) == |gs|
  {
    SumAlongCounts(m, gs, keys);
    OccurrencesAlongAll(gs, keys);
  }

  /**
   * The grade distribution of a summary sums to the number of nearby routes with a
   * non-empty grade, which is at most the number of nearby routes.
   */
  lemma GradeDistributionTotal(near: seq<Candidate>, distribution: map<string, nat>, keys: seq<string>)
    requires forall g :: g in distribution <==> g != "" && GradeCount(near, g) > 0
    requires forall g :: g in distribution ==> distribution[g] == GradeCount(near, g)
    requires SeqOps.Distinct(keys) && forall g :: g in keys <==> g in distribution
    ensures SumAlong(distribution, keys) == |GradesOf(near)| <= |near|
  {
    var gs := GradesOf(near);
    forall g ensures g in distribution <==> g in gs {
      if g != "" {
        GradesOfCount(near, g);
      }
      assert g in gs <==> g in multiset(gs);
    }
    forall g | g in distribution ensures distribution[g] == multiset(gs)[g] {
      GradesOfCount(near, g);
    }
    HistogramTotal(distribution, gs, keys);
  }

  /** The `grade_counts` loop: a histogram of `grades`. */
  method CountGrades(grades: seq<string>) returns (gradeCounts: map<string, nat>)
    ensures forall g :: g in gradeCounts <==> g in grades
    ensures forall g :: g in gradeCounts ==> gradeCounts[g] == multiset(grades)[g]
  {
    gradeCounts := map[];
    var i := 0;
    while i < |grades|
      invariant 0 <= i <= |grades|
      invariant forall g :: g in gradeCounts <==> g in grades[..i]
      invariant forall g :: g in gradeCounts ==> gradeCounts[g] == multiset(grades[..i])[g]
    {
      var grade := grades[i];
      assert grades[..i + 1] == grades[..i] + [grade];
      gradeCounts := gradeCounts[grade := (if grade in gradeCounts then gradeCounts[grade] else 0) + 1];
      i := i + 1;
    }
    assert grades[..i] == grades;
  }

  // ---------------------------------------------------------------------------
  // The agent

  class BoulderingRecommendationAgent {
    const db: BoulderDatabase

    constructor (database: BoulderDatabase)
      ensures db == database
    {
      db := database;
    }

    /**
     * `recommend_routes`: nearby routes, filtered by approach, grade and holds, scored,
     * sorted by descending score (stable) and cut to `limit`.
     */
    method RecommendRoutes(userLocation: Point, preferredGrades: seq<string>, preferredHolds: seq<string>,
                           maxApproachDistance: real, searchRadius: real, limit: int)
      returns (recommendations: seq<ScoredRoute>)
      requires db.Valid()
      ensures recommendations == Recommend(db.table, db.distance, userLocation, preferredGrades, preferredHolds,
                                           maxApproachDistance, searchRadius, limit)
    {
      var near := db.GetBouldersNearLocation(userLocation.lat, userLocation.lon, searchRadius);
      var candidates := FilterByApproach(near, maxApproachDistance);
      if preferredGrades != [] {
        candidates := SeqOps.Keep(candidates, GradeTest(preferredGrades));
      }
      assert candidates == FilterByGrade(FilterByApproach(near, maxApproachDistance), preferredGrades);
      if preferredHolds != [] {
        candidates := SeqOps.Keep(candidates, HoldsTest(preferredHolds));
      }
      assert candidates == ApplyPreferences(near, maxApproachDistance, preferredGrades, preferredHolds);
      var scoredRoutes: seq<ScoredRoute> := [];
      var i := 0;
      while i < |candidates|
        invariant 0 <= i <= |candidates|
        invariant |scoredRoutes| == i
        invariant forall j :: 0 <= j < i ==> scoredRoutes[j] == ScoredRoute(candidates[j], BaseScore(candidates[j]))
      {
        var score := CalculateBaseScore(candidates[i]);
        scoredRoutes := scoredRoutes + [ScoredRoute(candidates[i], score)];
        i := i + 1;
      }
      assert scoredRoutes == Scored(candidates);
      recommendations := SeqOps.Head(StableSort.SortBy(scoredRoutes, NegatedScore), limit);
    }

    /**
     * `get_area_statistics`: route count, grade histogram and mean rating and approach
     * over the proximity result (no preference filtering).
     */
    method GetAreaStatistics(userLocation: Point, searchRadius: real) returns (stats: AreaStatistics)
      requires db.Valid()
      ensures var near := Near(db.table, userLocation, searchRadius, db.distance);
        && (stats == NoRoutes <==> near == [])
        && (stats.Summary? ==>
             && stats.totalRoutes == |near|
             && (forall g :: g in stats.gradeDistribution <==> g != "" && GradeCount(near, g) > 0)
             && (forall g :: g in stats.gradeDistribution ==> stats.gradeDistribution[g] == GradeCount(near, g))
             && stats.averageRating == (if RatingsOf(near) == [] then None else Some(Mean(RatingsOf(near))))
             && stats.averageApproach == Mean(ApproachesOf(near)))
    {
      var boulders := db.GetBouldersNearLocation(userLocation.lat, userLocation.lon, searchRadius);
      if boulders == [] {
        return NoRoutes;
      }
      var grades := GradesOf(boulders);
      var gradeCounts := CountGrades(grades);
      forall g | g != ""
        ensures g in gradeCounts <==> GradeCount(boulders, g) > 0
        ensures g in gradeCounts ==> gradeCounts[g] == GradeCount(boulders, g)
      {
        GradesOfCount(boulders, g);
      }
      var ratings := RatingsOf(boulders);
      var averageRating := if ratings == [] then None else Some(Mean(ratings));
      stats := Summary(|boulders|, gradeCounts, averageRating, Mean(ApproachesOf(boulders)));
    }
  }

  /**
   * The two-route example: with a maximum approach of 1.0 and no grade or hold
   * preference, a route with approach 0.5 is kept and one with approach 1.2 is dropped.
   */
  lemma ApproachFilterExample(theNose: Candidate, midnightLightning: Candidate)
    requires theNose.route.approachDistance == 0.5
    requires midnightLightning.route.approachDistance == 1.2
    ensures ApplyPreferences([theNose, midnightLightning], 1.0, [], []) == [theNose]
  {
    var cs := [theNose, midnightLightning];
    var p := ApproachTest(1.0);
    assert p(theNose) && !p(midnightLightning);
    assert cs[1..] == [midnightLightning];
    assert cs[1..][1..] == [];
    assert SeqOps.Keep(cs[1..], p) == [];
    assert SeqOps.Keep(cs, p) == [theNose];
  }
}
