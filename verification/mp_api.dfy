/**
 * The pure field mapping of `MountainProjectAPI` in `mp_api.py`: grade normalisation,
 * hold extraction and the conversion of an API route into a `Boulder`.
 */
module MpApi {
  import opened Wrappers
  import opened Text
  import SeqOps
  import opened Boulders

  /**
   * A route as the API returns it. `None` marks a key that is absent from the JSON
   * object; `name`, `latitude`, `longitude` and `url` are read with `[...]` and so
   * must be present.
   */
  datatype MpRoute = MpRoute(
    name: string,
    rating: Option<string>,          // the grade label, e.g. "V1-2"
    location: Option<seq<string>>,   // the area path, outermost first
    latitude: real,
    longitude: real,
    description: Option<string>,
    url: string,
    stars: Option<real>,
    height: Option<real>,
    fa: Option<string>)

  /** `possible_holds` */
  const PossibleHolds: seq<string> := ["crimps", "jugs", "slopers", "pinches", "pockets", "sidepulls", "underclings"]

  /** The approach distance the conversion assigns (the API does not provide one). */
  const DefaultApproach: real := 0.1

  /** The seven hold keywords are pairwise different. */
  lemma PossibleHoldsDistinct()
    ensures SeqOps.Distinct(PossibleHolds)
  {
    var h := PossibleHolds;
    assert h[0][0] == 'c' && h[1][0] == 'j' && h[2][..2] == "sl" && h[3][..2] == "pi";
    assert h[4][..2] == "po" && h[5][..2] == "si" && h[6][0] == 'u';
  }

  function HoldMentioned(descLower: string): string -> bool {
    h => Occurs(h, descLower)
  }

  /**
   * `[hold for hold in possible_holds if hold in desc_lower]`: the hold keywords that
   * occur in the lower-cased description, in the order of `possible_holds`.
   */
  function ExtractHolds(description: string): (holds: seq<string>)
    ensures forall h :: h in holds <==> h in PossibleHolds && Occurs(h, Lower(description))
    ensures SeqOps.IsSubsequence(holds, PossibleHolds)
    ensures SeqOps.Distinct(holds) && |holds| <= 7
  {
    var p := HoldMentioned(Lower(description));
    SeqOps.KeepIsSubsequence(PossibleHolds, p);
    PossibleHoldsDistinct();
    SeqOps.KeepDistinct(PossibleHolds, p);
    SeqOps.Keep(PossibleHolds, p)
  }

  /** `grade.split('-')[0]`: the part of `s` before its first '-', or all of `s`. */
  function BeforeHyphen(s: string): (r: string)
    ensures r <= s
    ensures '-' !in r
    ensures |r| < |s| ==> s[|r|] == '-'
  {
    if s == [] || s[0] == '-' then [] else [s[0]] + BeforeHyphen(s[1..])
  }

  /** `_normalize_grade`: cut a range such as "V1-2" at the hyphen, then strip whitespace. */
  function NormalizeGrade(grade: string): (r: string)
    ensures '-' !in r
    ensures r == [] || (!IsSpace(r[0]) && !IsSpace(r[|r| - 1]))
  {
    var g := if '-' in grade then BeforeHyphen(grade) else grade;
    StripChars(g);
    Strip(g)
  }

  /** `BeforeHyphen` stops exactly at the first hyphen. */
  lemma BeforeFirstHyphen(s: string, i: nat)
    requires i < |s| && s[i] == '-' && '-' !in s[..i]
    ensures BeforeHyphen(s) == s[..i]
  {
  }

  /**
   * Prefix rule: with a hyphen, the result is the stripped text before the first hyphen;
   * without one, the stripped input.
   */
  lemma NormalizeGradePrefixRule(grade: string, i: nat)
    requires i < |grade| && grade[i] == '-' && '-' !in grade[..i]
    ensures NormalizeGrade(grade) == Strip(grade[..i])
  {
    BeforeFirstHyphen(grade, i);
  }

  lemma NormalizeGradeNoHyphen(grade: string)
    requires '-' !in grade
    ensures NormalizeGrade(grade) == Strip(grade)
  {
  }

  /** Normalising twice is normalising once. */
  lemma NormalizeGradeIdempotent(grade: string)
    ensures NormalizeGrade(NormalizeGrade(grade)) == NormalizeGrade(grade)
  {
    var r := NormalizeGrade(grade);
    NormalizeGradeNoHyphen(r);
    StripTrimmed(r);
  }

  /** A grade range such as "V1-2" normalises to its lower end "V1". */
  lemma NormalizeGradeRange(low: string, rest: string)
    requires '-' !in low
    requires low == [] || (!IsSpace(low[0]) && !IsSpace(low[|low| - 1]))
    ensures NormalizeGrade(low + "-" + rest) == low
  {
    var grade := low + "-" + rest;
    assert grade[|low|] == '-' && grade[..|low|] == low;
    NormalizeGradePrefixRule(grade, |low|);
    StripTrimmed(low);
  }

  /** Whitespace around a grade such as " V3 " is removed. */
  lemma NormalizeGradePadded(pre: string, grade: string, post: string)
    requires forall k :: 0 <= k < |pre| ==> pre[k] == ' '
    requires forall k :: 0 <= k < |post| ==> post[k] == ' '
    requires '-' !in grade && grade != [] && !IsSpace(grade[0]) && !IsSpace(grade[|grade| - 1])
    ensures NormalizeGrade(pre + grade + post) == grade
  {
    var padded := pre + grade + post;
    assert '-' !in padded by {
      forall k | 0 <= k < |padded| ensures padded[k] != '-' {
        if k < |pre| {
        } else if k < |pre| + |grade| {
          assert padded[k] == grade[k - |pre|];
        } else {
          assert padded[k] == post[k - |pre| - |grade|];
        }
      }
    }
    NormalizeGradeNoHyphen(padded);
    StripPadding(pre, grade, post);
  }

  /** `mp_route.get('location', [])[-1] if mp_route.get('location') else ''` */
  function AreaName(location: Option<seq<string>>): (area: string)
    ensures location.Some? && location.value != [] ==> area == location.value[|location.value| - 1]
    ensures location.None? || location.value == [] ==> area == ""
  {
    if location.Some? && location.value != [] then location.value[|location.value| - 1] else ""
  }

  /** `convert_to_boulder` */
  function ConvertToBoulder(route: MpRoute): (b: Boulder)
    ensures Located(b) && Position(b) == Point(route.latitude, route.longitude)
    ensures b.approachDistance == 0.1 && b.routeType == "boulder"
    ensures b.rating == (if route.stars.Some? then route.stars.value else 0.0)
    ensures b.location == AreaName(route.location)
    ensures '-' !in b.grade
    ensures forall h :: h in b.holds ==> h in PossibleHolds
    ensures SeqOps.Distinct(b.holds)
    ensures b.description == route.description.GetOr("")
    ensures b.name == route.name && b.url == route.url
    ensures b.grade == NormalizeGrade(route.rating.GetOr(""))
    ensures b.holds == ExtractHolds(b.description)
    ensures b.height == (if route.height.Some? && route.height.value != 0.0 then route.height else None)
    ensures b.fa == Some(route.fa.GetOr(""))
  {
    var description := route.description.GetOr("");
    Boulder(
      name := route.name,
      grade := NormalizeGrade(route.rating.GetOr("")),
      location := AreaName(route.location),
      latitude := Some(route.latitude),
      longitude := Some(route.longitude),
      approachDistance := DefaultApproach,
      routeType := "boulder",
      holds := ExtractHolds(description),
      description := description,
      url := route.url,
      rating := route.stars.GetOr(0.0),
      height := if route.height.Some? && route.height.value != 0.0 then route.height else None,
      fa := Some(route.fa.GetOr("")))
  }

  /**
   * A route ingested from the API is found by any proximity query whose radius covers
   * its coordinates, once stored.
   */
  lemma ConvertedRouteIsNear(rows: seq<StoredRoute>, route: MpRoute, id: nat, center: Point, radius: real, dist: DistanceFn)
    requires dist(center, Point(route.latitude, route.longitude)) <= radius
    ensures Candidate(id, ConvertToBoulder(route), dist(center, Point(route.latitude, route.longitude)))
              in Near(rows + [StoredRoute(id, ConvertToBoulder(route))], center, radius, dist)
  {
    var b := ConvertToBoulder(route);
    var all := rows + [StoredRoute(id, b)];
    var c := Candidate(id, b, dist(center, Point(route.latitude, route.longitude)));
    assert all[|rows|] == StoredRoute(id, b);
    assert InRadius(all[|rows|], center, radius, dist);
    assert c == Annotate(all[|rows|], center, dist);
    assert AnnotatesRowInRadius(c, all, center, radius, dist);
    NearMembership(all, center, radius, dist, c);
  }
}
