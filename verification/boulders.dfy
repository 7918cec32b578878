/**
 * The route record, the route store and the proximity query of `bouldering_agent.py`.
 * The SQLite table is a sequence of stored rows; the geodesic distance (geopy) is a
 * distance function the store is built with.
 */
module Boulders {
  import opened Wrappers
  import StableSort

  /** A point in decimal degrees. */
  datatype Point = Point(lat: real, lon: real)

  /** A distance function in miles, the stand-in for `geodesic(a, b).miles`. */
  type DistanceFn = (Point, Point) -> real

  /**
   * The `Boulder` record. Latitude and longitude are optional because the table's
   * columns are nullable and the proximity query tests them for NULL.
   */
  datatype Boulder = Boulder(
    name: string,
    grade: string,
    location: string,
    latitude: Option<real>,
    longitude: Option<real>,
    approachDistance: real,   // miles
    routeType: string,
    holds: seq<string>,
    description: string,
    url: string,
    rating: real,
    height: Option<real>,
    fa: Option<string>)       // first ascent

  /** A row of the `boulders` table: the record with its AUTOINCREMENT key. */
  datatype StoredRoute = StoredRoute(id: nat, boulder: Boulder)

  /** A row returned by the proximity query: the record annotated with its distance. */
  datatype Candidate = Candidate(id: nat, route: Boulder, distance: real)

  /** `latitude IS NOT NULL AND longitude IS NOT NULL` */
  predicate Located(b: Boulder) {
    b.latitude.Some? && b.longitude.Some?
  }

  function Position(b: Boulder): Point
    requires Located(b)
  {
    Point(b.latitude.value, b.longitude.value)
  }

  /** The row is located and lies within `radius` of `center`. */
  predicate InRadius(row: StoredRoute, center: Point, radius: real, dist: DistanceFn) {
    Located(row.boulder) && dist(center, Position(row.boulder)) <= radius
  }

  function Annotate(row: StoredRoute, center: Point, dist: DistanceFn): Candidate
    requires Located(row.boulder)
  {
    Candidate(row.id, row.boulder, dist(center, Position(row.boulder)))
  }

  /** The rows within the radius, annotated, in table order (what the scan loop collects). */
  function InRange(rows: seq<StoredRoute>, center: Point, radius: real, dist: DistanceFn): (r: seq<Candidate>)
    ensures |r| <= |rows|
  {
    if rows == [] then []
    else
      var last := rows[|rows| - 1];
      InRange(rows[..|rows| - 1], center, radius, dist)
        + (if InRadius(last, center, radius, dist) then [Annotate(last, center, dist)] else [])
  }

  function DistanceKey(c: Candidate): real {
    c.distance
  }

  /** The result of `get_boulders_near_location`: InRange sorted (stably) by distance. */
  function Near(rows: seq<StoredRoute>, center: Point, radius: real, dist: DistanceFn): seq<Candidate>
  {
    StableSort.SortBy(InRange(rows, center, radius, dist), DistanceKey)
  }

  /** `c` is the annotation of some stored row within the radius. */
  ghost predicate AnnotatesRowInRadius(c: Candidate, rows: seq<StoredRoute>, center: Point, radius: real, dist: DistanceFn) {
    exists i :: 0 <= i < |rows| && InRadius(rows[i], center, radius, dist) && c == Annotate(rows[i], center, dist)
  }

  lemma {:induction false} InRangeMembership(rows: seq<StoredRoute>, center: Point, radius: real, dist: DistanceFn, c: Candidate)
    ensures c in InRange(rows, center, radius, dist) <==> AnnotatesRowInRadius(c, rows, center, radius, dist)
  {
    if rows != [] {
      var n := |rows| - 1;
      var front := rows[..n];
      InRangeMembership(front, center, radius, dist, c);
      if AnnotatesRowInRadius(c, front, center, radius, dist) {
        var i :| 0 <= i < |front| && InRadius(front[i], center, radius, dist) && c == Annotate(front[i], center, dist);
        assert rows[i] == front[i];
      }
      if AnnotatesRowInRadius(c, rows, center, radius, dist) {
        var i :| 0 <= i < |rows| && InRadius(rows[i], center, radius, dist) && c == Annotate(rows[i], center, dist);
        if i < n {
          assert front[i] == rows[i];
        }
      }
    }
  }

  /**
   * Proximity membership: the query returns exactly the located stored rows within the
   * radius, each annotated with its distance from the centre.
   */
  lemma NearMembership(rows: seq<StoredRoute>, center: Point, radius: real, dist: DistanceFn, c: Candidate)
    ensures c in Near(rows, center, radius, dist) <==> AnnotatesRowInRadius(c, rows, center, radius, dist)
  {
    StableSort.SortByIsStableSort(InRange(rows, center, radius, dist), DistanceKey);
    assert c in Near(rows, center, radius, dist) <==> c in multiset(Near(rows, center, radius, dist));
    InRangeMembership(rows, center, radius, dist, c);
  }

  /**
   * Proximity order: the result is sorted ascending by distance and is a permutation of
   * the rows kept by the scan, taken in table order.
   */
  lemma NearSortedPermutation(rows: seq<StoredRoute>, center: Point, radius: real, dist: DistanceFn)
    ensures forall i, j :: 0 <= i < j < |Near(rows, center, radius, dist)| ==>
      Near(rows, center, radius, dist)[i].distance <= Near(rows, center, radius, dist)[j].distance
    ensures multiset(Near(rows, center, radius, dist)) == multiset(InRange(rows, center, radius, dist))
  {
    StableSort.SortByIsStableSort(InRange(rows, center, radius, dist), DistanceKey);
  }

  /** Rows with a NULL latitude or longitude are never returned. */
  lemma NearOnlyLocated(rows: seq<StoredRoute>, center: Point, radius: real, dist: DistanceFn)
    ensures forall c :: c in Near(rows, center, radius, dist) ==> Located(c.route)
  {
    forall c | c in Near(rows, center, radius, dist) ensures Located(c.route) {
      NearMembership(rows, center, radius, dist, c);
    }
  }

  /**
   * A row stored at (0.0, 0.0) is not treated as unlocated: it is measured from the
   * centre like any other row and returned when within the radius.
   */
  lemma NearKeepsZeroCoordinates(rows: seq<StoredRoute>, center: Point, radius: real, dist: DistanceFn, i: nat)
    requires i < |rows|
    requires rows[i].boulder.latitude == Some(0.0) && rows[i].boulder.longitude == Some(0.0)
    requires dist(center, Point(0.0, 0.0)) <= radius
    ensures Candidate(rows[i].id, rows[i].boulder, dist(center, Point(0.0, 0.0))) in Near(rows, center, radius, dist)
  {
    NearMembership(rows, center, radius, dist, Annotate(rows[i], center, dist));
  }

  lemma {:induction false} InRangeMonotone(rows: seq<StoredRoute>, center: Point, r1: real, r2: real, dist: DistanceFn)
    requires r1 <= r2
    ensures multiset(InRange(rows, center, r1, dist)) <= multiset(InRange(rows, center, r2, dist))
  {
    if rows != [] {
      InRangeMonotone(rows[..|rows| - 1], center, r1, r2, dist);
    }
  }

  /**
   * Radius monotonicity: with the same centre, every row returned for radius r1 is
   * returned (as often) for any larger radius r2.
   */
  lemma NearRadiusMonotone(rows: seq<StoredRoute>, center: Point, r1: real, r2: real, dist: DistanceFn)
    requires r1 <= r2
    ensures multiset(Near(rows, center, r1, dist)) <= multiset(Near(rows, center, r2, dist))
  {
    StableSort.SortByIsStableSort(InRange(rows, center, r1, dist), DistanceKey);
    StableSort.SortByIsStableSort(InRange(rows, center, r2, dist), DistanceKey);
    InRangeMonotone(rows, center, r1, r2, dist);
  }

  /** Row keys in strictly increasing order, as AUTOINCREMENT issues them. */
  predicate KeysIncreasing(rows: seq<StoredRoute>) {
    forall i, j :: 0 <= i < j < |rows| ==> rows[i].id < rows[j].id
  }

  predicate IdsIncreasing(cs: seq<Candidate>) {
    forall i, j :: 0 <= i < j < |cs| ==> cs[i].id < cs[j].id
  }

  /** The scan meets the rows in key order, so its candidates come out in key order. */
  lemma {:induction false} InRangeIdsIncreasing(rows: seq<StoredRoute>, center: Point, radius: real, dist: DistanceFn)
    requires KeysIncreasing(rows)
    ensures IdsIncreasing(InRange(rows, center, radius, dist))
  {
    if rows != [] {
      var n := |rows| - 1;
      var front := rows[..n];
      var head := InRange(front, center, radius, dist);
      InRangeIdsIncreasing(front, center, radius, dist);
      if InRadius(rows[n], center, radius, dist) {
        var r := InRange(rows, center, radius, dist);
        forall i, j | 0 <= i < j < |r| ensures r[i].id < r[j].id {
          if j == |head| {
            InRangeMembership(front, center, radius, dist, r[i]);
            assert r[i] in head;
            var k :| 0 <= k < |front| && InRadius(front[k], center, radius, dist) && r[i] == Annotate(front[k], center, dist);
            assert front[k] == rows[k];
          }
        }
      }
    }
  }

  /** A sequence with strictly increasing ids holds each candidate at most once. */
  lemma {:induction false} AtMostOnce(cs: seq<Candidate>, x: Candidate)
    requires IdsIncreasing(cs)
    ensures multiset(cs)[x] <= 1
  {
    if cs != [] {
      assert cs == [cs[0]] + cs[1..];
      AtMostOnce(cs[1..], x);
      if cs[0] == x {
        assert x !in cs[1..];
      }
    }
  }

  /** A value found at two positions occurs at least twice. */
  lemma TwiceAtLeast(cs: seq<Candidate>, i: nat, j: nat)
    requires i < j < |cs| && cs[i] == cs[j]
    ensures multiset(cs)[cs[j]] >= 2
  {
    assert cs == cs[..j] + [cs[j]] + cs[j + 1..];
    assert cs[..j][i] == cs[j];
  }

  /** With keys in increasing order, the query returns every route at most once. */
  lemma NearIdsDistinct(rows: seq<StoredRoute>, center: Point, radius: real, dist: DistanceFn)
    requires KeysIncreasing(rows)
    ensures var r := Near(rows, center, radius, dist);
      forall i, j :: 0 <= i < j < |r| ==> r[i].id != r[j].id
  {
    var s := InRange(rows, center, radius, dist);
    var r := Near(rows, center, radius, dist);
    InRangeIdsIncreasing(rows, center, radius, dist);
    StableSort.SortByIsStableSort(s, DistanceKey);
    forall i, j | 0 <= i < j < |r| ensures r[i].id != r[j].id {
      if r[i].id == r[j].id {
        assert r[i] in multiset(s) && r[j] in multiset(s);
        var p :| 0 <= p < |s| && s[p] == r[i];
        var q :| 0 <= q < |s| && s[q] == r[j];
        assert p == q;
        TwiceAtLeast(r, i, j);
        AtMostOnce(s, r[j]);
        assert false;
      }
    }
  }

  /** The `boulders` table with its AUTOINCREMENT counter. */
  class BoulderDatabase {
    var table: seq<StoredRoute>
    var nextId: nat
    const distance: DistanceFn

    /** Keys are positive, strictly increasing in insertion order and below the counter. */
    ghost predicate Valid()
      reads this
    {
      && 1 <= nextId
      && (forall i :: 0 <= i < |table| ==> 1 <= table[i].id < nextId)
      && KeysIncreasing(table)
    }

    /**
     * `__init__` on a database file: `CREATE TABLE IF NOT EXISTS` keeps the rows already
     * stored (none for a new file) and the AUTOINCREMENT counter, whose last issued key is
     * `lastKey` (0 for a new file). `distance` stands for the geodesic distance in miles.
     */
    constructor (distance: DistanceFn, existing: seq<StoredRoute>, lastKey: nat)
      requires forall i :: 0 <= i < |existing| ==> 1 <= existing[i].id <= lastKey
      requires KeysIncreasing(existing)
      ensures Valid()
      ensures table == existing && nextId == lastKey + 1 && this.distance == distance
    {
      table := existing;
      nextId := lastKey + 1;
      this.distance := distance;
    }

    /** `add_boulder`: insert the record as a new row with a fresh key. */
    method AddBoulder(b: Boulder)
      requires Valid()
      modifies this
      ensures Valid()
      ensures table == old(table) + [StoredRoute(old(nextId), b)]
      ensures nextId == old(nextId) + 1
    {
      table := table + [StoredRoute(nextId, b)];
      nextId := nextId + 1;
    }

    /**
     * `get_boulders_near_location`: scan the located rows, keep those within
     * `radiusMiles` of (lat, lon) annotated with their distance, and sort by distance.
     */
    method GetBouldersNearLocation(lat: real, lon: real, radiusMiles: real) returns (nearby: seq<Candidate>)
      requires Valid()
      ensures nearby == Near(table, Point(lat, lon), radiusMiles, distance)
      ensures forall i, j :: 0 <= i < j < |nearby| ==> nearby[i].id != nearby[j].id
    {
      var center := Point(lat, lon);
      var rows := table;
      var found: seq<Candidate> := [];
      var i := 0;
      while i < |rows|
        invariant 0 <= i <= |rows|
        invariant found == InRange(rows[..i], center, radiusMiles, distance)
      {
        var row := rows[i];
        assert rows[..i + 1][..i] == rows[..i];
        if Located(row.boulder) {
          var d := distance(center, Position(row.boulder));
          if d <= radiusMiles {
            found := found + [Candidate(row.id, row.boulder, d)];
          }
        }
        i := i + 1;
      }
      assert rows[..i] == rows;
      nearby := StableSort.SortBy(found, DistanceKey);
      NearIdsDistinct(rows, center, radiusMiles, distance);
    }
  }
}
