/** The route state of the map (`MapManager`, js/MapManager.js): the stored
    route coordinates, the vehicle markers held as plain positions, and the
    nearest-vertex search that keeps the marker on the route. */
module RouteMap {
  import opened Wrappers
  import opened Utils
  import opened RouteData

  /** `routeData.map(point => [point.latitude, point.longitude])`. */
  function Coords(route: seq<RoutePoint>): (coords: seq<LatLng>)
    ensures |coords| == |route|
    ensures forall i :: 0 <= i < |route| ==> coords[i] == route[i].Position()
  {
    seq(|route|, i requires 0 <= i < |route| => route[i].Position())
  }

  /** Squared Euclidean distance in degree space.  The source compares
      `Math.sqrt` of this value; the square root is monotone, so both
      comparisons pick the same vertex. */
  function SqDist(a: LatLng, b: LatLng): real {
    (a.lat - b.lat) * (a.lat - b.lat) + (a.lng - b.lng) * (a.lng - b.lng)
  }

  /** A product of reals is zero only when a factor is. */
  lemma ZeroProduct(x: real, y: real)
    requires x * y == 0.0
    ensures x == 0.0 || y == 0.0
  {
  }

  lemma SelfProductNonNegative(x: real)
    ensures x * x >= 0.0
  {
  }

  /** The squared distance is never negative and is zero exactly between
      equal positions. */
  lemma SqDistZero(a: LatLng, b: LatLng)
    ensures SqDist(a, b) >= 0.0
    ensures SqDist(a, b) == 0.0 <==> a == b
  {
    var dLat, dLng := a.lat - b.lat, a.lng - b.lng;
    SelfProductNonNegative(dLat);
    SelfProductNonNegative(dLng);
    if SqDist(a, b) == 0.0 {
      assert dLat * dLat == 0.0;
      ZeroProduct(dLat, dLat);
      assert dLng * dLng == 0.0;
      ZeroProduct(dLng, dLng);
    }
  }

  /** Among the first `n` vertices, vertex `k` is nearest to `q`, and every
      earlier vertex is strictly farther (the first nearest in scan order). */
  ghost predicate IsFirstNearest(coords: seq<LatLng>, n: nat, q: LatLng, k: int) {
    && 0 <= k < n <= |coords|
    && (forall j :: 0 <= j < n ==> SqDist(coords[k], q) <= SqDist(coords[j], q))
    && (forall j :: 0 <= j < k ==> SqDist(coords[k], q) < SqDist(coords[j], q))
  }

  /** The declarative reading of `getExactRoutePosition`: with no stored
      route, or an empty one, the query itself; otherwise the first nearest
      vertex. */
  ghost predicate SnapsTo(routeCoordinates: Option<seq<LatLng>>, q: LatLng, p: LatLng) {
    if routeCoordinates.None? || |routeCoordinates.value| == 0 then p == q
    else exists k :: IsFirstNearest(routeCoordinates.value, |routeCoordinates.value|, q, k) && p == routeCoordinates.value[k]
  }

  /** The index the scan of `getExactRoutePosition` ends on: the best of the
      earlier vertices, replaced by the last one only when that is strictly
      nearer. */
  function NearestIndex(coords: seq<LatLng>, q: LatLng): (k: nat)
    requires |coords| > 0
    ensures k < |coords|
    decreases |coords|
  {
    if |coords| == 1 then 0
    else
      var k := NearestIndex(coords[..|coords| - 1], q);
      if SqDist(coords[|coords| - 1], q) < SqDist(coords[k], q) then |coords| - 1 else k
  }

  /** The position `getExactRoutePosition` returns. */
  function Snap(routeCoordinates: Option<seq<LatLng>>, q: LatLng): (p: LatLng)
    ensures routeCoordinates.None? || |routeCoordinates.value| == 0 ==> p == q
    ensures routeCoordinates.Some? && |routeCoordinates.value| > 0 ==> p in routeCoordinates.value
  {
    if routeCoordinates.None? || |routeCoordinates.value| == 0 then q
    else routeCoordinates.value[NearestIndex(routeCoordinates.value, q)]
  }

  /** The scan finds the first nearest vertex. */
  lemma {:induction false} NearestIndexIsFirstNearest(coords: seq<LatLng>, q: LatLng)
    requires |coords| > 0
    ensures IsFirstNearest(coords, |coords|, q, NearestIndex(coords, q))
    decreases |coords|
  {
    var n := |coords|;
    if n > 1 {
      var prefix := coords[..n - 1];
      NearestIndexIsFirstNearest(prefix, q);
      var k := NearestIndex(prefix, q);
      assert forall j :: 0 <= j < n - 1 ==> prefix[j] == coords[j];
      if SqDist(coords[n - 1], q) < SqDist(coords[k], q) {
        assert IsFirstNearest(coords, n, q, n - 1);
      } else {
        assert IsFirstNearest(coords, n, q, k);
      }
    }
  }

  /** The tie-break makes the first nearest vertex unique. */
  lemma FirstNearestUnique(coords: seq<LatLng>, n: nat, q: LatLng, k1: int, k2: int)
    requires IsFirstNearest(coords, n, q, k1) && IsFirstNearest(coords, n, q, k2)
    ensures k1 == k2
  {
    assert SqDist(coords[k1], q) <= SqDist(coords[k2], q) <= SqDist(coords[k1], q);
  }

  /** The scan's result is exactly the declarative one: a position
      satisfies `SnapsTo` if and only if it is `Snap`. */
  lemma SnapIsFirstNearest(routeCoordinates: Option<seq<LatLng>>, q: LatLng, p: LatLng)
    ensures SnapsTo(routeCoordinates, q, p) <==> p == Snap(routeCoordinates, q)
  {
    if routeCoordinates.Some? && |routeCoordinates.value| > 0 {
      var coords := routeCoordinates.value;
      var k := NearestIndex(coords, q);
      NearestIndexIsFirstNearest(coords, q);
      assert SnapsTo(routeCoordinates, q, coords[k]);
      if SnapsTo(routeCoordinates, q, p) {
        var k1 :| IsFirstNearest(coords, |coords|, q, k1) && p == coords[k1];
        FirstNearestUnique(coords, |coords|, q, k1, k);
      }
    }
  }

  /** A query that is itself a vertex snaps to itself. */
  lemma SnapToVertex(coords: seq<LatLng>, q: LatLng)
    requires q in coords
    ensures Snap(Some(coords), q) == q
  {
    var p := Snap(Some(coords), q);
    var k := NearestIndex(coords, q);
    NearestIndexIsFirstNearest(coords, q);
    var j :| 0 <= j < |coords| && coords[j] == q;
    assert SqDist(p, q) <= SqDist(coords[j], q);
    SqDistZero(q, q);
    SqDistZero(p, q);
  }

  /** With the coordinates derived from the route (or none stored), point
      `i` of the route snaps to its own position. */
  lemma SnapRoutePoint(routeCoordinates: Option<seq<LatLng>>, route: seq<RoutePoint>, i: nat)
    requires routeCoordinates.Some? ==> routeCoordinates.value == Coords(route)
    requires i < |route|
    ensures Snap(routeCoordinates, route[i].Position()) == route[i].Position()
  {
    if routeCoordinates.Some? {
      assert Coords(route)[i] == route[i].Position();
      SnapToVertex(routeCoordinates.value, route[i].Position());
    }
  }

  class MapManager {
    /** `this.routeCoordinates`: `undefined` until `createRoute` stores it. */
    var routeCoordinates: Option<seq<LatLng>>
    /** Position of the vehicle marker, when there is one. */
    var vehicleMarker: Option<LatLng>
    /** Position of the fallback marker, when there is one. */
    var fallbackMarker: Option<LatLng>

    constructor()
      ensures routeCoordinates.None? && vehicleMarker.None? && fallbackMarker.None?
    {
      routeCoordinates := None;
      vehicleMarker := None;
      fallbackMarker := None;
    }

    /** `createRoute`: stores the route's coordinates (the polyline and the
        map fitting are not modelled). */
    method CreateRoute(routeData: seq<RoutePoint>)
      modifies this`routeCoordinates
      ensures routeCoordinates == Some(Coords(routeData))
    {
      var coords := Coords(routeData);
      routeCoordinates := Some(coords);
    }

    /** `getExactRoutePosition`: a scan over the vertices that replaces the
        best one only on a strictly smaller distance, so ties go to the
        earliest vertex. */
    method GetExactRoutePosition(latitude: real, longitude: real) returns (p: LatLng)
      ensures p == Snap(routeCoordinates, LatLng(latitude, longitude))
    {
      var q := LatLng(latitude, longitude);
      if routeCoordinates.None? || |routeCoordinates.value| == 0 {
        return q;
      }
      var coords := routeCoordinates.value;
      p := coords[0];
      var minDistance: Option<real> := None;  // None stands for Infinity
      ghost var k: nat := 0;
      for i := 0 to |coords|
        invariant k < |coords| && p == coords[k]
        invariant i == 0 ==> minDistance.None?
        invariant i > 0 ==> minDistance == Some(SqDist(p, q)) && k == NearestIndex(coords[..i], q)
      {
        var distance := SqDist(coords[i], q);
        assert coords[..i + 1][..i] == coords[..i];
        if minDistance.None? || distance < minDistance.value {
          minDistance := Some(distance);
          p := coords[i];
          k := i;
        }
      }
      assert coords[..|coords|] == coords;
    }

    /** `addVehicleMarker`: the vehicle marker at the snapped start point,
        the fallback marker at the raw start point.  With no start point the
        source throws on `startPoint.latitude` and catches the error, so
        nothing changes. */
    method AddVehicleMarker(startPoint: Option<RoutePoint>)
      modifies this`vehicleMarker, this`fallbackMarker
      ensures startPoint.None? ==> vehicleMarker == old(vehicleMarker) && fallbackMarker == old(fallbackMarker)
      ensures startPoint.Some? ==>
        && vehicleMarker == Some(Snap(routeCoordinates, startPoint.value.Position()))
        && fallbackMarker == Some(startPoint.value.Position())
    {
      if startPoint.Some? {
        var exactPosition := GetExactRoutePosition(startPoint.value.latitude, startPoint.value.longitude);
        vehicleMarker := Some(exactPosition);
        fallbackMarker := Some(startPoint.value.Position());
      }
    }

    /** `updateVehiclePosition`: nothing without a vehicle marker; otherwise
        both markers (the fallback one only if it exists) move to the
        snapped position. */
    method UpdateVehiclePosition(latitude: real, longitude: real)
      modifies this`vehicleMarker, this`fallbackMarker
      ensures old(vehicleMarker).None? ==> vehicleMarker.None? && fallbackMarker == old(fallbackMarker)
      ensures old(vehicleMarker).Some? ==>
        && vehicleMarker == Some(Snap(routeCoordinates, LatLng(latitude, longitude)))
        && fallbackMarker == (if old(fallbackMarker).Some? then vehicleMarker else None)
    {
      if vehicleMarker.Some? {
        var exactPosition := GetExactRoutePosition(latitude, longitude);
        vehicleMarker := Some(exactPosition);
        if fallbackMarker.Some? {
          fallbackMarker := Some(exactPosition);
        }
      }
    }

    /** `resetVehicle`: as `updateVehiclePosition` for the start point, and
        nothing when there is no start point. */
    method ResetVehicle(startPoint: Option<RoutePoint>)
      modifies this`vehicleMarker, this`fallbackMarker
      ensures old(vehicleMarker).None? || startPoint.None? ==>
        vehicleMarker == old(vehicleMarker) && fallbackMarker == old(fallbackMarker)
      ensures old(vehicleMarker).Some? && startPoint.Some? ==>
        && vehicleMarker == Some(Snap(routeCoordinates, startPoint.value.Position()))
        && fallbackMarker == (if old(fallbackMarker).Some? then vehicleMarker else None)
    {
      if vehicleMarker.Some? && startPoint.Some? {
        var exactPosition := GetExactRoutePosition(startPoint.value.latitude, startPoint.value.longitude);
        vehicleMarker := Some(exactPosition);
        if fallbackMarker.Some? {
          fallbackMarker := Some(exactPosition);
        }
      }
    }
  }
}
