/**
 * The pure parts of `MountainProjectScraper` in `mp_scraper.py`: the V-grade acceptance
 * test and breadcrumb join of a parsed route page, and the conversion of a parsed page
 * into a `Boulder` with the `V(\d+)` grade extractor.
 */
module MpScraper {
  import opened Wrappers
  import opened Text
  import opened Boulders

  /** `s[i]` is a 'V' immediately followed by a digit: a match of `V\d` starts at `i`. */
  predicate VDigitAt(s: string, i: int) {
    0 <= i && i + 1 < |s| && s[i] == 'V' && IsDigit(s[i + 1])
  }

  predicate HasVDigit(s: string) {
    exists i :: 0 <= i < |s| && VDigitAt(s, i)
  }

  /** The leftmost `V\d` match at or after `from`, as `re.search` scans. */
  function FirstVDigitFrom(s: string, from: nat): (r: Option<nat>)
    requires from <= |s|
    ensures r.Some? ==> from <= r.value && VDigitAt(s, r.value)
    ensures r.Some? ==> forall j :: from <= j < r.value ==> !VDigitAt(s, j)
    ensures r.None? ==> forall j :: from <= j ==> !VDigitAt(s, j)
    decreases |s| - from
  {
    if from + 1 >= |s| then None
    else if VDigitAt(s, from) then Some(from)
    else FirstVDigitFrom(s, from + 1)
  }

  /** The maximal run of digits at the start of `s`: what `\d+` matches there. */
  function DigitRun(s: string): (r: string)
    ensures r <= s
    ensures forall k :: 0 <= k < |r| ==> IsDigit(r[k])
    ensures |r| < |s| ==> !IsDigit(s[|r|])
  {
    if s != [] && IsDigit(s[0]) then [s[0]] + DigitRun(s[1..]) else []
  }

  /** "V" followed by one or more digits. */
  predicate IsVNumber(v: string) {
    |v| >= 2 && v[0] == 'V' && forall k :: 1 <= k < |v| ==> IsDigit(v[k])
  }

  /** `f"V{grade_match.group(1)}" if grade_match else "VB"` with `re.search(r'V(\d+)', grade)`. */
  function ConvertGrade(grade: string): (v: string)
    ensures IsVNumber(v) || v == "VB"
    ensures v == "VB" <==> !HasVDigit(grade)
  {
    match FirstVDigitFrom(grade, 0)
    case Some(i) =>
      assert VDigitAt(grade, i) && grade[i + 1..][0] == grade[i + 1];
      var v := "V" + DigitRun(grade[i + 1..]);
      assert v[1] != "VB"[1];
      v
    case None => "VB"
  }

  /**
   * First match, maximal digits: the grade is built from the leftmost 'V' followed by a
   * digit and from the whole run of digits after it.
   */
  lemma ConvertGradeFirstMatch(grade: string, i: nat, digits: string)
    requires VDigitAt(grade, i) && forall j :: 0 <= j < i ==> !VDigitAt(grade, j)
    requires digits <= grade[i + 1..] && forall k :: 0 <= k < |digits| ==> IsDigit(digits[k])
    requires i + 1 + |digits| == |grade| || !IsDigit(grade[i + 1 + |digits|])
    ensures ConvertGrade(grade) == "V" + digits
  {
    var first := FirstVDigitFrom(grade, 0);
    assert first == Some(i);
    DigitRunUnique(grade[i + 1..], digits);
  }

  /** A digit prefix that cannot be extended is the digit run. */
  lemma {:induction false} DigitRunUnique(s: string, digits: string)
    requires digits <= s && forall k :: 0 <= k < |digits| ==> IsDigit(digits[k])
    requires |digits| == |s| || !IsDigit(s[|digits|])
    ensures DigitRun(s) == digits
  {
    if digits != [] {
      assert s[1..][|digits| - 1..] == s[|digits|..];
      DigitRunUnique(s[1..], digits[1..]);
    }
  }

  /** Extracting the grade again changes nothing. */
  lemma ConvertGradeIdempotent(grade: string)
    ensures ConvertGrade(ConvertGrade(grade)) == ConvertGrade(grade)
  {
    var v := ConvertGrade(grade);
    if v == "VB" {
      assert !VDigitAt(v, 0) && !VDigitAt(v, 1);
      assert !HasVDigit(v);
    } else {
      assert VDigitAt(v, 0);
      assert v[1..] <= v[1..];
      ConvertGradeFirstMatch(v, 0, v[1..]);
    }
  }

  /** "V4-5" gives "V4" and "V0+" gives "V0": the digit run ends at the first non-digit. */
  lemma ConvertGradeRangeExample()
    ensures ConvertGrade("V4-5") == "V4"
    ensures ConvertGrade("V0+") == "V0"
  {
    ConvertGradeFirstMatch("V4-5", 0, "4");
    ConvertGradeFirstMatch("V0+", 0, "0");
  }

  /** "V10" gives "V10": the whole run of digits is kept. */
  lemma ConvertGradeTwoDigitExample()
    ensures ConvertGrade("V10") == "V10"
  {
    ConvertGradeFirstMatch("V10", 0, "10");
  }

  /** "5.12a", a rope grade, gives "VB". */
  lemma ConvertGradeRopeExample()
    ensures ConvertGrade("5.12a") == "VB"
  {
    assert !HasVDigit("5.12a");
  }

  /** The labels of the acceptance test: V0 … V16. */
  const VGradeLabels: seq<string> :=
    ["V0", "V1", "V2", "V3", "V4", "V5", "V6", "V7", "V8", "V9",
     "V10", "V11", "V12", "V13", "V14", "V15", "V16"]

  /** `any(x in grade for x in ['V0', …, 'V16'])` */
  predicate Accepted(grade: string) {
    exists k :: 0 <= k < |VGradeLabels| && Occurs(VGradeLabels[k], grade)
  }

  /** Every label is a 'V' followed by a digit. */
  lemma LabelsStartWithVDigit(k: nat)
    requires k < |VGradeLabels|
    ensures |VGradeLabels[k]| >= 2 && VGradeLabels[k][0] == 'V' && IsDigit(VGradeLabels[k][1])
  {
  }

  /** The first ten labels are 'V' followed by each digit. */
  lemma SingleDigitLabel(d: char)
    requires IsDigit(d)
    ensures VGradeLabels[d as int - '0' as int] == ['V', d]
  {
  }

  /**
   * The acceptance test is the same as "contains a 'V' followed by a digit", since
   * V10 … V16 all contain V1.
   */
  lemma AcceptedIffVDigit(grade: string)
    ensures Accepted(grade) <==> HasVDigit(grade)
  {
    if Accepted(grade) {
      var k :| 0 <= k < |VGradeLabels| && Occurs(VGradeLabels[k], grade);
      var tag := VGradeLabels[k];
      LabelsStartWithVDigit(k);
      var i := OccursPosition(tag, grade);
      assert grade[i..][..2] == tag[..2];
      assert VDigitAt(grade, i);
    }
    if HasVDigit(grade) {
      var i :| 0 <= i < |grade| && VDigitAt(grade, i);
      var d := grade[i + 1];
      SingleDigitLabel(d);
      assert ['V', d] <= grade[i..];
      OccursAt(['V', d], grade, i);
    }
  }

  /** An accepted grade always converts to a numbered V grade, never to "VB". */
  lemma AcceptedNeverVB(grade: string)
    requires Accepted(grade)
    ensures IsVNumber(ConvertGrade(grade))
  {
    AcceptedIffVDigit(grade);
  }

  /** `' > '.join(location) if location else ""` */
  function JoinCrumbs(crumbs: seq<string>): (r: string)
    ensures crumbs == [] ==> r == ""
    ensures crumbs != [] ==> crumbs[0] <= r
    ensures crumbs != [] ==> |r| >= |crumbs[|crumbs| - 1]| && r[|r| - |crumbs[|crumbs| - 1]|..] == crumbs[|crumbs| - 1]
  {
    if |crumbs| <= 1 then (if crumbs == [] then "" else crumbs[0])
    else JoinCrumbs(crumbs[..|crumbs| - 1]) + " > " + crumbs[|crumbs| - 1]
  }

  /** Total number of characters in the crumbs. */
  function TotalLength(crumbs: seq<string>): nat {
    if crumbs == [] then 0 else TotalLength(crumbs[..|crumbs| - 1]) + |crumbs[|crumbs| - 1]|
  }

  /** The joined breadcrumb holds every crumb plus three characters per separator. */
  lemma {:induction false} JoinCrumbsLength(crumbs: seq<string>)
    requires crumbs != []
    ensures |JoinCrumbs(crumbs)| == TotalLength(crumbs) + 3 * (|crumbs| - 1)
  {
    if |crumbs| > 1 {
      JoinCrumbsLength(crumbs[..|crumbs| - 1]);
    } else {
      assert crumbs[..0] == [];
    }
  }

  /** Adding a crumb appends the separator and the crumb. */
  lemma JoinCrumbsAppend(crumbs: seq<string>, crumb: string)
    requires crumbs != []
    ensures JoinCrumbs(crumbs + [crumb]) == JoinCrumbs(crumbs) + " > " + crumb
  {
    assert (crumbs + [crumb])[..|crumbs|] == crumbs;
  }

  /** The dictionary `_parse_boulder_page` returns. */
  datatype ScrapedRoute = ScrapedRoute(name: string, grade: string, description: string, location: string, url: string)

  /**
   * The decisions `_parse_boulder_page` takes once the page's fields are read: `grade` is
   * `None` when the stats table has no "Grade:" row; the route is dropped unless its grade
   * is non-empty and passes the V-grade test.
   */
  function ParsePage(name: string, grade: Option<string>, description: string, crumbs: seq<string>, url: string): (r: Option<ScrapedRoute>)
    ensures r.Some? <==> grade.Some? && HasVDigit(grade.value)
    ensures r.Some? ==> r.value == ScrapedRoute(name, grade.value, description, JoinCrumbs(crumbs), url)
  {
    if grade.None? || grade.value == "" then None
    else
      AcceptedIffVDigit(grade.value);
      if !Accepted(grade.value) then None
      else Some(ScrapedRoute(name, grade.value, description, JoinCrumbs(crumbs), url))
  }

  /** `convert_to_boulder` */
  function ConvertToBoulder(page: ScrapedRoute): (b: Boulder)
    ensures b.name == page.name && b.description == page.description
    ensures b.location == page.location && b.url == page.url
    ensures b.latitude == Some(0.0) && b.longitude == Some(0.0)
    ensures b.approachDistance == 0.0 && b.rating == 0.0 && b.holds == [] && b.routeType == "boulder"
    ensures IsVNumber(b.grade) || b.grade == "VB"
    ensures b.grade == ConvertGrade(page.grade)
    ensures b.height == None && b.fa == None
  {
    Boulder(
      name := page.name,
      grade := ConvertGrade(page.grade),
      location := page.location,
      latitude := Some(0.0),
      longitude := Some(0.0),
      approachDistance := 0.0,
      routeType := "boulder",
      holds := [],
      description := page.description,
      url := page.url,
      rating := 0.0,
      height := None,
      fa := None)
  }

  /** Every route the scraper keeps is stored with a numbered V grade. */
  lemma ScrapedRouteHasVNumber(name: string, grade: Option<string>, description: string, crumbs: seq<string>, url: string)
    requires ParsePage(name, grade, description, crumbs, url).Some?
    ensures IsVNumber(ConvertToBoulder(ParsePage(name, grade, description, crumbs, url).value).grade)
  {
    AcceptedIffVDigit(grade.value);
    AcceptedNeverVB(grade.value);
  }
}
