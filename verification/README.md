# Bouldering route recommender: verified model

This project models the core of a bouldering route recommender. A store of boulder
problems is queried by proximity. The nearby routes are filtered by the climber's
preferences, scored, ranked and cut to a limit. The area summary counts grades and
averages rating and approach. Mountain Project routes are converted into the store's
record format on ingestion.

Modules (one concern per file):

- `boulders.dfy` (`Boulders`) holds the `Boulder` record. It also holds the
  `BoulderDatabase` class:
  - its table is a sequence of keyed rows;
  - `AddBoulder` appends to the table;
  - `GetBouldersNearLocation` scans the table in a loop.

  The specification function `Near` states the proximity query.
- `recommendation.dfy` (`Recommendation`) holds:
  - the three preference filters;
  - the score;
  - the ranking specification `Recommend`;
  - the grade histogram;
  - the `BoulderingRecommendationAgent` class with `RecommendRoutes` and
    `GetAreaStatistics`.
- `font_grades.dfy` (`FontGrades`) holds the Font-to-V grade lookup of the agent file.
- `mp_api.dfy` (`MpApi`) holds, from the Mountain Project API client:
  - range-stripping grade normalisation;
  - hold-keyword extraction;
  - the route-to-`Boulder` mapping.
- `mp_scraper.dfy` (`MpScraper`) holds, from the page scraper:
  - the `V(\d+)` grade extractor;
  - the V-grade acceptance test;
  - the breadcrumb join;
  - the page-to-`Boulder` mapping.
- Supporting modules stand for the Python built-ins the source relies on:
  - `text.dfy` (`Text`): `str.upper`, `str.lower`, `str.strip`, substring `in`;
  - `seq_ops.dfy` (`SeqOps`): list-comprehension filtering and `[:limit]` slicing;
  - `stable_sort.dfy` (`StableSort`): the stable `sorted`;
  - `wrappers.dfy` (`Wrappers`): `Option`.

Modelling choices:

- The geodesic distance is a parameter, a function from two points to miles. The
  database object is constructed with it.
- Opening a database file is modelled by the constructor's other two parameters: the
  rows the file already holds and the last key its AUTOINCREMENT counter issued. A new
  file has no rows and last key 0.
- `sorted(..., reverse=True)` is modelled as a stable ascending sort on the negated score.
  That gives the same order as Python's stable reverse sort: descending, with ties kept
  in input order.
- `None` lists for grade and hold preferences are modelled as empty sequences. The
  source treats `None` and `[]` alike.
- Rows whose latitude or longitude is SQL `NULL` carry `None` in `Boulder.latitude` or
  `Boulder.longitude`.
- The proximity query's `SELECT` has no `ORDER BY`, so SQLite leaves the row order
  unspecified. The model assumes the rows come back in key (insertion) order, which is
  what SQLite does for a plain scan of a rowid table. That order decides how routes at
  equal distance, and recommendations with equal score, are ordered. It is also the
  order `InRangeIdsIncreasing` is about.

Two behaviours of the source are easy to miss:

- Routes stored with coordinates (0.0, 0.0) are not excluded. The query drops only
  `NULL` coordinates, so such routes are measured from (0, 0).
- A negative `limit` follows Python slicing and drops that many entries from the end of
  the ranking. The list is empty exactly when the magnitude of the limit is at least the
  number of survivors (limit -1 with one survivor gives `[]`).

## Model

| member | source | states |
|---|---|---|
| Boulders.BoulderDatabase.constructor | bouldering_agent.py:105-143 | opening a database keeps the rows already stored (none for a new file) and continues the AUTOINCREMENT counter after the last issued key; it measures with the given distance function |
| Boulders.BoulderDatabase.AddBoulder | bouldering_agent.py:145-163 | the record is appended as one new row keyed by the next AUTOINCREMENT key; keys stay positive and strictly increasing |
| Boulders.BoulderDatabase.GetBouldersNearLocation | bouldering_agent.py:165-197 | the scan loop returns exactly `Near`: the located rows within the radius, each annotated with its distance, in ascending distance order; no route is returned twice |
| Boulders.InRange | bouldering_agent.py:171-194 | the scan keeps at most one candidate per row; `InRangeMembership` states exactly which |
| Boulders.Near | bouldering_agent.py:165-197 | the query specification: the scan's candidates stably sorted by distance; `NearMembership`, `NearSortedPermutation` and `NearIdsDistinct` state its properties |
| Boulders.InRangeIdsIncreasing | bouldering_agent.py:176-194 | rows scanned in key order give candidates in key order |
| Boulders.NearIdsDistinct | bouldering_agent.py:171-197 | with keys as AUTOINCREMENT issues them, the query returns each route at most once |
| Boulders.InRangeMembership | bouldering_agent.py:171-194 | a candidate is produced by the scan iff it is some row with both coordinates present, annotated with its distance, and that distance is at most the radius |
| Boulders.NearMembership | bouldering_agent.py:171-197 | the same if-and-only-if for the sorted result |
| Boulders.NearSortedPermutation | bouldering_agent.py:197 | the result is sorted ascending by distance and is a permutation of the scanned candidates |
| Boulders.NearOnlyLocated | bouldering_agent.py:171-174 | every returned route has a latitude and a longitude |
| Boulders.NearKeepsZeroCoordinates | bouldering_agent.py:171-185 | a row stored at (0.0, 0.0) is returned, measured from (0, 0), whenever that distance is within the radius |
| Boulders.InRangeMonotone | bouldering_agent.py:185 | a larger radius scans out a multiset of candidates that contains the smaller radius's |
| Boulders.NearRadiusMonotone | bouldering_agent.py:185 | for r1 <= r2 the routes returned for r1 are among those returned for r2 |
| Recommendation.PreferencesAreOneFilter | bouldering_agent.py:233-244 | the three successive filters equal one filter by the conjunction of their conditions |
| Recommendation.FilterByApproach | bouldering_agent.py:233-235 | the list gets no longer; as a `SeqOps.Keep` by the `<=` test, a candidate is kept iff it is in the input and its approach is at most the maximum |
| Recommendation.FilterByGrade | bouldering_agent.py:237-239 | the list gets no longer; with grades given it is a `SeqOps.Keep` by grade membership, with none the input is returned |
| Recommendation.FilterByHolds | bouldering_agent.py:241-244 | the list gets no longer; with holds given it is a `SeqOps.Keep` by "has every requested hold", with none the input is returned |
| Recommendation.ApplyPreferences | bouldering_agent.py:233-244 | the three filters in the source's order give no more survivors than candidates; `PreferenceFilterConditions` states exactly which survive |
| Recommendation.PreferenceFilterConditions | bouldering_agent.py:233-244 | a candidate survives iff it was a candidate, its approach is at most the maximum, its grade is listed (when grades are given) and it has every requested hold (when holds are given); survivors keep their order |
| Recommendation.PreferencesIdempotent | bouldering_agent.py:233-244 | filtering the survivors again changes nothing |
| Recommendation.HoldFilterIsConjunctive | bouldering_agent.py:242-244 | a route with crimps and slopers fails a request for crimps and jugs: all requested holds are needed |
| Recommendation.ApproachFilterExample | bouldering_agent.py:233-235 | with maximum approach 1.0, a route at 0.5 is kept and one at 1.2 dropped |
| Recommendation.CalculateBaseScore | bouldering_agent.py:260-275 | the score accumulated step by step is rating*20 - distance*0.5 - approach*2, with the weights as the named constants `BaseScore` uses |
| Recommendation.BaseScore | bouldering_agent.py:260-275 | the score specification rating*20 - distance*0.5 - approach*2; `ScoreMonotone` and `CalculateBaseScore` state its properties |
| Recommendation.ScoreMonotone | bouldering_agent.py:260-275 | the score does not decrease with rating and does not increase with distance or approach |
| Recommendation.Scored | bouldering_agent.py:246-251 | scoring yields one entry per candidate |
| Recommendation.Recommend | bouldering_agent.py:210-256 | the recommendation specification: survivors scored, stably sorted by descending score and cut by `[:limit]`; the `Recommend...` lemmas state its properties |
| Recommendation.RecommendSortedDescending | bouldering_agent.py:253-256 | recommendations are in descending score order |
| Recommendation.RecommendLength | bouldering_agent.py:253-256 | for limit >= 0 the length is min(limit, survivors); a negative limit drops that many from the end |
| Recommendation.RecommendSound | bouldering_agent.py:228-256 | every recommendation is a route of the proximity result that passes all filters and carries its base score |
| Recommendation.RecommendStable | bouldering_agent.py:253-256 | among equal scores, recommendations appear as a prefix of the survivors with that score in their distance order |
| Recommendation.RecommendKeepsBest | bouldering_agent.py:253-256 | a survivor cut by the limit scores no higher than any kept route; with a limit covering all survivors, all are returned |
| Recommendation.BoulderingRecommendationAgent.constructor | bouldering_agent.py:202-208 | the agent queries the given database |
| Recommendation.BoulderingRecommendationAgent.RecommendRoutes | bouldering_agent.py:210-258 | the result equals `Recommend`: proximity query, filters, scoring loop, stable descending sort and `[:limit]` |
| Recommendation.BoulderingRecommendationAgent.GetAreaStatistics | bouldering_agent.py:277-300 | no nearby route gives only the zero summary; otherwise the total is the number of nearby routes, the histogram holds exactly the non-empty grades present, each counted, and the averages are the means of non-zero ratings and of approaches |
| Recommendation.GradesOf | bouldering_agent.py:287 | the grade list has no empty grade and no more entries than routes |
| Recommendation.GradesOfCount | bouldering_agent.py:287 | a non-empty grade occurs in the grade list once per route with that grade |
| Recommendation.GradeCount | bouldering_agent.py:287-290 | the number of routes with a given grade is at most the number of routes |
| Recommendation.CountGrades | bouldering_agent.py:288-290 | the counting loop's map has exactly the listed grades as keys, each mapped to its number of occurrences |
| Recommendation.RatingsOf | bouldering_agent.py:292 | every entry is a non-zero rating of some route and every non-zero rating of a route is present, with no more entries than routes |
| Recommendation.RatingCount | bouldering_agent.py:292 | the number of routes with a given rating is at most the number of routes |
| Recommendation.RatingsOfCount | bouldering_agent.py:292 | each non-zero rating occurs in the rating list exactly as often as among the routes |
| Recommendation.SumAppend | bouldering_agent.py:292-299 | the sum of a concatenation is the sum of the sums |
| Recommendation.SumRemove | bouldering_agent.py:292-299 | removing one element takes exactly its value off the sum |
| Recommendation.SumPermutation | bouldering_agent.py:292-299 | lists that are permutations of each other have the same sum, so `np.mean` depends only on the multiset of values |
| Recommendation.AverageRatingByCounts | bouldering_agent.py:292 | any list holding each non-zero rating as often as the routes do has the mean of `RatingsOf`, so the counts fix `average_rating` |
| Recommendation.ApproachesOf | bouldering_agent.py:298-299 | one approach per route, in route order |
| Recommendation.Mean | bouldering_agent.py:292-299 | `np.mean` of a non-empty list, without rounding; `MeanBounds` and `SumPermutation` state its properties |
| Recommendation.SumBounds | bouldering_agent.py:292-299 | a sum lies between count*lower bound and count*upper bound |
| Recommendation.MeanBounds | bouldering_agent.py:292-299 | an average lies between the bounds of the averaged values |
| Recommendation.AverageApproachBetween | bouldering_agent.py:298-299 | `average_approach` lies within any bounds on the approaches of the nearby routes |
| Recommendation.AverageRatingBetween | bouldering_agent.py:292 | `average_rating`, when some route is rated, lies within any bounds on the ratings of the rated nearby routes; unrated routes need no bound |
| Recommendation.HistogramTotal | bouldering_agent.py:287-290 | the counts of a histogram of a list sum to the list's length |
| Recommendation.GradeDistributionTotal | bouldering_agent.py:287-295 | the grade counts sum to the number of routes with a non-empty grade, which is at most `total_routes` |
| FontGrades.KeysStartWithDigit | bouldering_agent.py:94-99 | every key of the Font map starts with a digit |
| FontGrades.ValuesStartWithV | bouldering_agent.py:94-99 | every value of the Font map starts with 'V' |
| FontGrades.ValuesHaveNoLowerCase | bouldering_agent.py:94-99 | no value of the Font map has a lower-case letter |
| FontGrades.NormalizeFontGrade | bouldering_agent.py:91-100 | the result is the grade unchanged or a value of the Font table |
| FontGrades.NormalizeFontGradeResult | bouldering_agent.py:100 | a grade whose upper-case form is a key maps to a V grade; any other grade is returned unchanged, not upper-cased |
| FontGrades.NormalizeFontGradeIdempotent | bouldering_agent.py:94-100 | normalising twice is normalising once, since no value is a key |
| FontGrades.NormalizeFontGradeExamples | bouldering_agent.py:94-100 | "6b+" gives "V4", "7c+" gives "V11", "V5" and "f6a" stay |
| MpApi.PossibleHoldsDistinct | mp_api.py:51 | the seven hold keywords are pairwise different |
| MpApi.ExtractHolds | mp_api.py:49-52 | a keyword is extracted iff it occurs in the lower-cased description; the result keeps the keyword list's order, has no duplicates and at most 7 entries |
| MpApi.BeforeHyphen | mp_api.py:77-78 | the result is a prefix without '-' that ends where the input ends or at a '-' |
| MpApi.BeforeFirstHyphen | mp_api.py:77-78 | the cut falls exactly at the first hyphen |
| MpApi.NormalizeGrade | mp_api.py:73-79 | the result has no '-' and no leading or trailing whitespace |
| MpApi.NormalizeGradePrefixRule | mp_api.py:77-79 | with a hyphen, the result is the stripped text before the first hyphen |
| MpApi.NormalizeGradeNoHyphen | mp_api.py:77-79 | without a hyphen, the result is the stripped input |
| MpApi.NormalizeGradeIdempotent | mp_api.py:73-79 | normalising twice is normalising once |
| MpApi.NormalizeGradeRange | mp_api.py:75-79 | a range "low-rest" such as "V1-2" gives its lower end "V1" |
| MpApi.NormalizeGradePadded | mp_api.py:79 | spaces around a grade such as " V3 " are removed |
| MpApi.AreaName | mp_api.py:60 | the area is the last element of a present, non-empty location path, else "" |
| MpApi.ConvertToBoulder | mp_api.py:45-71 | the converted route is located at the API coordinates and keeps name and URL; its grade is `NormalizeGrade` of the rating (hence hyphen-free) and its holds are `ExtractHolds` of the description (hence distinct known keywords); approach 0.1, type "boulder", rating defaulting to 0, location from `AreaName`, description defaulting to "", height only when non-zero, first ascent defaulting to "" |
| MpApi.ConvertedRouteIsNear | mp_api.py:57-71 | once stored, a converted route is returned by any proximity query whose radius covers its coordinates |
| MpScraper.FirstVDigitFrom | mp_scraper.py:166 | the result is the leftmost position of a 'V' followed by a digit, or none when there is no such position |
| MpScraper.DigitRun | mp_scraper.py:166 | the result is the maximal prefix of digits |
| MpScraper.ConvertGrade | mp_scraper.py:166-167 | the grade is "V" plus one or more digits, or exactly "VB"; it is "VB" iff the input has no 'V' followed by a digit |
| MpScraper.ConvertGradeFirstMatch | mp_scraper.py:166-167 | the grade is "V" plus the whole digit run after the leftmost 'V' followed by a digit |
| MpScraper.ConvertGradeIdempotent | mp_scraper.py:166-167 | converting a converted grade changes nothing |
| MpScraper.ConvertGradeRangeExample | mp_scraper.py:166-167 | "V4-5" gives "V4" and "V0+" gives "V0" |
| MpScraper.ConvertGradeTwoDigitExample | mp_scraper.py:166-167 | "V10" gives "V10" |
| MpScraper.ConvertGradeRopeExample | mp_scraper.py:166-167 | "5.12a" gives "VB" |
| MpScraper.Accepted | mp_scraper.py:134-135 | one of the labels V0 to V16 occurs in the grade text; `AcceptedIffVDigit` characterises it |
| MpScraper.AcceptedIffVDigit | mp_scraper.py:134 | containing one of V0 to V16 is the same as containing a 'V' followed by a digit |
| MpScraper.AcceptedNeverVB | mp_scraper.py:134-167 | an accepted grade always converts to a numbered V grade, never "VB" |
| MpScraper.JoinCrumbs | mp_scraper.py:155 | no crumbs give ""; otherwise the joined text starts with the first crumb and ends with the last |
| MpScraper.JoinCrumbsLength | mp_scraper.py:155 | the joined length is the crumbs' total length plus 3 per separator |
| MpScraper.JoinCrumbsAppend | mp_scraper.py:155 | one more crumb appends " > " and the crumb |
| MpScraper.ParsePage | mp_scraper.py:126-157 | a page yields a route iff its grade is present and contains a 'V' followed by a digit; the route carries the name, grade, description, joined breadcrumb and URL |
| MpScraper.ConvertToBoulder | mp_scraper.py:163-181 | name, description, location and URL are copied; coordinates (0.0, 0.0), approach and rating 0.0, no holds, type "boulder", no height or first ascent; the grade is `ConvertGrade` of the page grade, so a V number or "VB" |
| MpScraper.ScrapedRouteHasVNumber | mp_scraper.py:126-181 | every page the scraper keeps converts to a numbered V grade |
| Text.UpperChar | bouldering_agent.py:100 | a lower-case letter becomes its upper-case letter; other characters are unchanged |
| Text.Upper | bouldering_agent.py:100 | `upper()` maps each character by `UpperChar` and keeps the length |
| Text.LowerChar | mp_api.py:50 | an upper-case letter becomes its lower-case letter; other characters are unchanged |
| Text.Lower | mp_api.py:50 | `lower()` maps each character by `LowerChar` and keeps the length |
| Text.Occurs | mp_api.py:52 | Python's substring `in`: the pattern is a prefix of some suffix; `OccursPosition` and `OccursAt` characterise it by positions |
| Text.OccursPosition | mp_api.py:52 | a substring that occurs has a position where it starts |
| Text.OccursAt | mp_api.py:52 | a substring found at some position occurs |
| Text.LStrip | mp_api.py:79 | the result is a suffix that drops only whitespace and starts with non-whitespace |
| Text.RStrip | mp_api.py:79 | the result is a prefix that drops only whitespace and ends with non-whitespace |
| Text.Strip | mp_api.py:79 | the result is a slice with only whitespace around it in the input, and it has no leading or trailing whitespace |
| Text.StripChars | mp_api.py:79 | stripping adds no character |
| Text.StripTrimmed | mp_api.py:79 | a string without surrounding whitespace is unchanged by stripping |
| Text.StripPadding | mp_api.py:79 | stripping removes exactly the whitespace padding around a trimmed string |
| Text.StripIdempotent | mp_api.py:79 | stripping twice is stripping once |
| SeqOps.Keep | bouldering_agent.py:234-244 | an element is kept iff it is in the list and passes the test; the result is no longer |
| SeqOps.KeepIsSubsequence | bouldering_agent.py:234-244 | filtering keeps the relative order |
| SeqOps.KeepDistinct | mp_api.py:52 | filtering a list without duplicates gives a list without duplicates |
| SeqOps.KeepIdempotent | bouldering_agent.py:234-244 | filtering twice by the same test is filtering once |
| SeqOps.KeepKeep | bouldering_agent.py:234-244 | filtering by p then by q is filtering by "p and q" |
| SeqOps.Head | bouldering_agent.py:256 | `[:limit]` gives a prefix of length min(limit, n) for limit >= 0, and n + limit (at least 0) for a negative limit |
| StableSort.SortByIsStableSort | bouldering_agent.py:254-256 | the sort output is ascending by key and a permutation, and the elements sharing a key keep their input order |
| StableSort.WithKeyPrefix | bouldering_agent.py:256 | cutting a list keeps, for every key, a prefix of the elements with that key |

## Left out

- Geodesic distance (`geopy`) is an ellipsoidal floating-point computation in a foreign
  library. The distance function is a parameter of the database and of every
  specification function.
- Boulders.Near: the distance function is total, so the query always returns. In the
  source, `geodesic` raises `ValueError` for a latitude outside [-90, 90] or a coordinate
  that is not finite, whether it is the user's centre or a stored row (app.py:173-174
  stores any latitude it is given). The whole query then fails and the web endpoint
  answers 400 (app.py:157-161). That error path is not modelled.
- Boulders.InRangeIdsIncreasing: relies on the key-order assumption about SQLite's row
  order stated above; SQL itself promises no order without `ORDER BY`.
- SQLite and JSON:
  - connection handling;
  - schema and index creation;
  - positional row decoding;
  - the JSON encoding of holds;
  - the `created_at` column.
  
  The table is a sequence of rows that store the record as given.
- Nullable columns other than latitude and longitude are typed as the ingestion code
  writes them. A database row whose other columns are `NULL` is not modelled.
- Floating point: scores, distances and averages are exact reals.
  - Recommendation.BoulderingRecommendationAgent.GetAreaStatistics: does not model
    `round(..., 2)`.
  - The NaN that `np.mean` yields for an area without rated routes is `None` in
    `averageRating`.
- Unicode case mapping: `upper()` and `lower()` are modelled on ASCII letters only.
  `\d` is modelled as ASCII digits only. The whitespace set of `strip()` is Python's
  `isspace` set.
- The unused `grade_difficulty` table and the default parameter values of the Python
  methods. Every parameter is explicit in the model.
- All HTTP and HTML work is network I/O and foreign parsing:
  - the `BoulderingScraper` methods;
  - `_get_page` with its retries, sleeps and random delays;
  - `get_area_boulders`;
  - the BeautifulSoup navigation of `_parse_boulder_page`;
  - the `get_area_by_*` requests.
  
  `MpScraper.ParsePage` starts from the fields that navigation has read.
- Out of scope, as orchestration and printing:
  - the area crawler `mp_area_discovery.py`;
  - the web endpoints in `app.py`;
  - `populate_db.py`;
  - the `main` functions.
- MpApi.ConvertToBoulder: the failing conversions are not modelled. The source raises
  `KeyError` when `name`, `latitude`, `longitude` or `url` is missing, and `ValueError`
  when `float()` cannot read a coordinate, the stars or the height (mp_api.py:58-69).
  `fetch_and_store_area_data` then skips that route (mp_api.py:113-115). The model's
  `MpRoute` has these four fields always present and numbers already read as reals.
- MpApi.ConvertToBoulder: a JSON key that is present with a `null` value is not
  distinguished from a missing key. `mp_route.get(key, default)` returns `None` in the
  first case; the model uses the default.
