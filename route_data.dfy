/** The route store (`DataManager`, js/DataManager.js): the loaded route
    points, bounds-checked access to them, distances and speeds between
    points, and the fallback route used when loading yields nothing. */
module RouteData {
  import opened Wrappers
  import opened Utils

  /** One record of the route file.  `timestamp` is the ISO 8601 instant,
      held as milliseconds since the Unix epoch. */
  datatype RoutePoint = RoutePoint(latitude: real, longitude: real, timestamp: int)
  {
    function Position(): LatLng {
      LatLng(latitude, longitude)
    }
  }

  /** Distance of segment `(i - 1, i)` of a route. */
  function SegmentDistance(haversine: Haversine, route: seq<RoutePoint>, i: nat): (km: real)
    requires 0 < i < |route|
    ensures km >= 0.0
  {
    Distance(haversine, route[i - 1].Position(), route[i].Position())
  }

  /** Distance covered walking the route from point 0 to point `k`: the sum
      of the segments `(i - 1, i)` for `i` in `1..k`. */
  function Travelled(haversine: Haversine, route: seq<RoutePoint>, k: nat): (km: real)
    requires k == 0 || k < |route|
    ensures km >= 0.0
    decreases k
  {
    if k == 0 then 0.0 else Travelled(haversine, route, k - 1) + SegmentDistance(haversine, route, k)
  }

  /** The length of the whole route. */
  function PathLength(haversine: Haversine, route: seq<RoutePoint>): real {
    if |route| == 0 then 0.0 else Travelled(haversine, route, |route| - 1)
  }

  /** The same sum, taken from the front of the route: the first segment plus
      the length of the rest. */
  function SegmentSum(haversine: Haversine, route: seq<RoutePoint>): real
    decreases |route|
  {
    if |route| < 2 then 0.0
    else Distance(haversine, route[0].Position(), route[1].Position()) + SegmentSum(haversine, route[1..])
  }

  /** Walking further never covers less distance. */
  lemma {:induction false} TravelledMonotone(haversine: Haversine, route: seq<RoutePoint>, j: nat, k: nat)
    requires j <= k
    requires k == 0 || k < |route|
    ensures Travelled(haversine, route, j) <= Travelled(haversine, route, k)
    decreases k - j
  {
    if j < k {
      TravelledMonotone(haversine, route, j, k - 1);
    }
  }

  /** No prefix of the walk is longer than the whole route. */
  lemma TravelledWithinPath(haversine: Haversine, route: seq<RoutePoint>, k: int)
    ensures 0 <= k && (k == 0 || k < |route|) ==>
      0.0 <= Travelled(haversine, route, k) <= PathLength(haversine, route)
  {
    if 0 <= k && (k == 0 || k < |route|) && |route| > 0 {
      TravelledMonotone(haversine, route, k, |route| - 1);
    }
  }

  /** Dropping the first point removes exactly the first segment. */
  lemma {:induction false} TravelledDropFirst(haversine: Haversine, route: seq<RoutePoint>, k: nat)
    requires 0 < k < |route|
    ensures Travelled(haversine, route, k)
         == Distance(haversine, route[0].Position(), route[1].Position()) + Travelled(haversine, route[1..], k - 1)
    decreases k
  {
    if k > 1 {
      TravelledDropFirst(haversine, route, k - 1);
      assert SegmentDistance(haversine, route, k) == SegmentDistance(haversine, route[1..], k - 1);
    }
  }

  /** The running sum that `calculateTotalDistance` accumulates and the
      independent first-segment-plus-rest definition give the same length. */
  lemma {:induction false} PathLengthIsSegmentSum(haversine: Haversine, route: seq<RoutePoint>)
    ensures PathLength(haversine, route) == SegmentSum(haversine, route)
    decreases |route|
  {
    if |route| >= 2 {
      TravelledDropFirst(haversine, route, |route| - 1);
      PathLengthIsSegmentSum(haversine, route[1..]);
    }
  }

  /** The five records of `createFallbackData`, five seconds apart from
      2024-07-20T10:00:00Z. */
  function FallbackRoute(): (route: seq<RoutePoint>)
    ensures |route| == 5
    ensures forall i :: 0 < i < |route| ==> route[i].timestamp == route[i - 1].timestamp + 5000
  {
    [ RoutePoint(17.385044, 78.486671, 1721469600000),
      RoutePoint(17.385045, 78.486672, 1721469605000),
      RoutePoint(17.385050, 78.486680, 1721469610000),
      RoutePoint(17.385060, 78.486690, 1721469615000),
      RoutePoint(17.385070, 78.486700, 1721469620000) ]
  }

  class DataManager {
    /** `Utils.calculateDistance`, which every distance here goes through. */
    const haversine: Haversine
    var routeData: seq<RoutePoint>

    constructor(haversine: Haversine)
      ensures this.haversine == haversine && routeData == []
    {
      this.haversine := haversine;
      routeData := [];
    }

    /** What `loadRouteData` does once the request has settled: `parsed` is
        the parsed array, or `None` when the request failed or the text did
        not parse.  An empty array is turned into an error as well, and every
        error ends in the fallback route, so the result is never empty. */
    method LoadRouteData(parsed: Option<seq<RoutePoint>>) returns (route: seq<RoutePoint>)
      modifies this
      ensures routeData == route && |route| > 0
      ensures parsed.Some? && |parsed.value| > 0 ==> route == parsed.value
      ensures parsed.None? || |parsed.value| == 0 ==> route == FallbackRoute()
    {
      if parsed.Some? {
        routeData := parsed.value;
        if |routeData| > 0 {
          route := routeData;
          return;
        }
      }
      route := CreateFallbackData();
    }

    /** `createFallbackData`: replaces the route by the five fallback
        records and returns them. */
    method CreateFallbackData() returns (route: seq<RoutePoint>)
      modifies this
      ensures route == FallbackRoute() && routeData == route
    {
      routeData := FallbackRoute();
      route := routeData;
    }

    function GetRouteData(): seq<RoutePoint>
      reads this
    {
      routeData
    }

    /** `getRoutePoint`: the point at `index` exactly when the index is in
        range, `null` otherwise. */
    function GetRoutePoint(index: int): (point: Option<RoutePoint>)
      reads this
      ensures point.Some? <==> 0 <= index < |routeData|
      ensures point.Some? ==> point.value == routeData[index]
    {
      if 0 <= index < |routeData| then Some(routeData[index]) else None
    }

    function GetRouteLength(): nat
      reads this
    {
      |routeData|
    }

    /** `getStartPoint`: `null` exactly for an empty route, else the first point. */
    function GetStartPoint(): (point: Option<RoutePoint>)
      reads this
      ensures point.None? <==> |routeData| == 0
      ensures point.Some? ==> point.value == routeData[0] && GetRoutePoint(0) == point
    {
      if |routeData| > 0 then Some(routeData[0]) else None
    }

    /** `getEndPoint`: `null` exactly for an empty route, else the last point. */
    function GetEndPoint(): (point: Option<RoutePoint>)
      reads this
      ensures point.None? <==> |routeData| == 0
      ensures point.Some? ==> point.value == routeData[|routeData| - 1]
      ensures point.Some? ==> GetRoutePoint(|routeData| - 1) == point
    {
      if |routeData| > 0 then Some(routeData[|routeData| - 1]) else None
    }

    /** `calculateTotalDistance`: the loop over the segments `(i - 1, i)`. */
    method CalculateTotalDistance() returns (total: real)
      ensures total == PathLength(haversine, routeData)
      ensures total == SegmentSum(haversine, routeData)
      ensures total >= 0.0
      ensures |routeData| <= 1 ==> total == 0.0
    {
      total := 0.0;
      var i := 1;
      while i < |routeData|
        invariant 1 <= i && (i == 1 || i <= |routeData|)
        invariant total == Travelled(haversine, routeData, i - 1)
      {
        var prevPoint := routeData[i - 1];
        var currentPoint := routeData[i];
        var distance := Distance(haversine, prevPoint.Position(), currentPoint.Position());
        total := total + distance;
        i := i + 1;
      }
      PathLengthIsSegmentSum(haversine, routeData);
    }

    /** `calculateDistanceBetweenPoints`: the haversine distance when both
        indices are in range, 0 otherwise. */
    function CalculateDistanceBetweenPoints(index1: int, index2: int): (km: real)
      reads this
      ensures km >= 0.0
      ensures 0 <= index1 < |routeData| && 0 <= index2 < |routeData| ==>
        km == Distance(haversine, routeData[index1].Position(), routeData[index2].Position())
      ensures !(0 <= index1 < |routeData| && 0 <= index2 < |routeData|) ==> km == 0.0
      ensures 0 < index2 < |routeData| && index1 == index2 - 1 ==> km == SegmentDistance(haversine, routeData, index2)
    {
      var point1 := GetRoutePoint(index1);
      var point2 := GetRoutePoint(index2);
      if point1.Some? && point2.Some? then
        Distance(haversine, point1.value.Position(), point2.value.Position())
      else
        0.0
    }

    /** `calculateSpeedBetweenPoints`: the distance over the timestamp
        difference in seconds, in km/h; 0 when an index is out of range or
        the second point is not later than the first. */
    function CalculateSpeedBetweenPoints(index1: int, index2: int): (kmh: real)
      reads this
      ensures kmh >= 0.0
      ensures !(0 <= index1 < |routeData| && 0 <= index2 < |routeData|) ==> kmh == 0.0
      ensures 0 <= index1 < |routeData| && 0 <= index2 < |routeData| ==>
        var seconds := (routeData[index2].timestamp - routeData[index1].timestamp) as real / 1000.0;
        kmh == CalculateSpeed(CalculateDistanceBetweenPoints(index1, index2), seconds)
      ensures (0 <= index1 < |routeData| && 0 <= index2 < |routeData| &&
               routeData[index2].timestamp <= routeData[index1].timestamp) ==> kmh == 0.0
    {
      var point1 := GetRoutePoint(index1);
      var point2 := GetRoutePoint(index2);
      if point1.Some? && point2.Some? then
        var distance := CalculateDistanceBetweenPoints(index1, index2);
        var timeDiff := (point2.value.timestamp - point1.value.timestamp) as real / 1000.0;
        CalculateSpeed(distance, timeDiff)
      else
        0.0
    }
  }
}
