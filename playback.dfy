/** The playback state machine (`VehicleSimulation`,
    js/VehicleSimulation.js): a cursor that a fixed-cadence timer steps one
    route point at a time.  With the corrected step, `MoveToNextPoint`, it
    sums the distance of every segment it crosses and pauses itself on the
    last point; `MoveToNextPointAsWritten` is the step as the source has it. */
module Playback {
  import opened Wrappers
  import opened Utils
  import opened RouteData
  import opened RouteMap

  /** `CONFIG.ANIMATION.DEFAULT_SPEED`: milliseconds between two ticks. */
  const DEFAULT_SPEED: int := 1000

  /** The time `updateInfoPanelWithExactCoords` assumes between two points. */
  const SECONDS_BETWEEN_POINTS: real := 5.0

  /** What the info panel is given by `updateVehicleInfo`. */
  datatype VehicleInfo = VehicleInfo(position: LatLng, timestamp: int, speed: real, distance: real)

  /** What the completion message is given: distance travelled and duration. */
  datatype Completion = Completion(distance: real, duration: string)

  /** The snapshot returned by `getState`. */
  datatype State = State(isPlaying: bool, currentIndex: int, totalDistance: real,
                         animationSpeed: int, startTime: Option<int>)

  class VehicleSimulation {
    const dataManager: DataManager
    const mapManager: MapManager

    var currentIndex: int
    var isPlaying: bool
    /** Whether `animationInterval` holds the handle of a running interval. */
    var animationInterval: bool
    /** Intervals that were started while another handle was still stored:
        nothing can clear them any more. */
    ghost var leakedTimers: nat
    var animationSpeed: int
    var totalDistance: real
    /** `startTime`, in milliseconds since the epoch. */
    var startTime: Option<int>
    /** What the info panel last showed; `None` is the reset panel. */
    var vehicleInfo: Option<VehicleInfo>
    /** The completion message last shown. */
    var completion: Option<Completion>

    ghost function Route(): seq<RoutePoint>
      reads dataManager
    {
      dataManager.routeData
    }

    /** The cursor stays on the route (`0 <= currentIndex <= max(0, length - 1)`),
        the distance is exactly the sum of the segments crossed,
        a route of two or more points is never playing at its last point,
        and the map's coordinates, once stored, are those of the route. */
    ghost predicate Valid()
      reads this, dataManager, mapManager
    {
      && OnRoute()
      && (isPlaying && |dataManager.routeData| >= 2 ==> currentIndex < |dataManager.routeData| - 1)
    }

    /** `Valid` without its clause about playing. */
    ghost predicate OnRoute()
      reads this, dataManager, mapManager
    {
      && 0 <= currentIndex
      && (currentIndex == 0 || currentIndex < |dataManager.routeData|)
      && totalDistance == Travelled(dataManager.haversine, dataManager.routeData, currentIndex)
      && (mapManager.routeCoordinates.Some? ==> mapManager.routeCoordinates.value == Coords(dataManager.routeData))
    }

    /** One interval runs exactly while playing, and none has leaked. */
    ghost predicate TimersSound()
      reads this
    {
      animationInterval == isPlaying && leakedTimers == 0
    }

    /** The state right after the constructor; the managers start empty. */
    constructor(haversine: Haversine)
      ensures Valid() && TimersSound()
      ensures fresh(dataManager) && fresh(mapManager)
      ensures dataManager.haversine == haversine && dataManager.routeData == []
      ensures mapManager.routeCoordinates.None? && mapManager.vehicleMarker.None? && mapManager.fallbackMarker.None?
      ensures currentIndex == 0 && !isPlaying && totalDistance == 0.0 && startTime.None?
      ensures animationSpeed == DEFAULT_SPEED && vehicleInfo.None? && completion.None?
    {
      currentIndex := 0;
      isPlaying := false;
      animationInterval := false;
      leakedTimers := 0;
      animationSpeed := DEFAULT_SPEED;
      totalDistance := 0.0;
      startTime := None;
      vehicleInfo := None;
      completion := None;
      mapManager := new MapManager();
      dataManager := new DataManager(haversine);
    }

    /** The steps of `initialize` once the route request has settled
        (`parsed` as in `LoadRouteData`): store the route, draw it, put the
        vehicle on its first point and fill the info panel.  The source runs
        it once, from the constructor, before the controls are enabled. */
    method Initialize(parsed: Option<seq<RoutePoint>>)
      requires Valid()
      requires currentIndex == 0
      modifies this, dataManager, mapManager
      ensures Valid()
      ensures |Route()| > 0
      ensures parsed.Some? && |parsed.value| > 0 ==> Route() == parsed.value
      ensures parsed.None? || |parsed.value| == 0 ==> Route() == FallbackRoute()
      ensures mapManager.routeCoordinates == Some(Coords(Route()))
      ensures mapManager.vehicleMarker == Some(Route()[0].Position())
      ensures mapManager.fallbackMarker == Some(Route()[0].Position())
      ensures vehicleInfo == Some(VehicleInfo(Route()[0].Position(), Route()[0].timestamp, 0.0, 0.0))
      ensures currentIndex == 0 && totalDistance == 0.0
      ensures isPlaying == old(isPlaying) && animationInterval == old(animationInterval)
      ensures leakedTimers == old(leakedTimers) && startTime == old(startTime)
      ensures animationSpeed == old(animationSpeed) && completion == old(completion)
    {
      var routeData := dataManager.LoadRouteData(parsed);
      mapManager.CreateRoute(routeData);
      mapManager.AddVehicleMarker(dataManager.GetStartPoint());
      SnapRoutePoint(mapManager.routeCoordinates, Route(), 0);
      UpdateInfoPanel();
    }

    /** `togglePlayPause`. */
    method TogglePlayPause(now: int)
      requires Valid() && TimersSound()
      modifies this, mapManager
      ensures Valid() && TimersSound()
      ensures isPlaying == !old(isPlaying)
      ensures mapManager.routeCoordinates == old(mapManager.routeCoordinates)
      ensures animationSpeed == old(animationSpeed) && completion == old(completion)
      ensures old(isPlaying) || old(currentIndex) < |Route()| - 1 ==>
        && currentIndex == old(currentIndex) && totalDistance == old(totalDistance)
        && vehicleInfo == old(vehicleInfo)
        && mapManager.vehicleMarker == old(mapManager.vehicleMarker)
        && mapManager.fallbackMarker == old(mapManager.fallbackMarker)
      ensures old(isPlaying) ==> startTime == old(startTime)
      ensures !old(isPlaying) && old(currentIndex) < |Route()| - 1 ==>
        startTime == (if old(startTime).Some? then old(startTime) else Some(now))
      ensures !old(isPlaying) && old(currentIndex) >= |Route()| - 1 ==>
        && currentIndex == 0 && totalDistance == 0.0 && startTime == Some(now)
        && (|Route()| > 0 ==> vehicleInfo == Some(VehicleInfo(Route()[0].Position(), Route()[0].timestamp, 0.0, 0.0)))
        && (|Route()| > 0 && old(mapManager.vehicleMarker).Some? ==>
              && mapManager.vehicleMarker == Some(Route()[0].Position())
              && mapManager.fallbackMarker == (if old(mapManager.fallbackMarker).Some? then mapManager.vehicleMarker else None))
        && (|Route()| == 0 ==> vehicleInfo == old(vehicleInfo))
        && (|Route()| == 0 || old(mapManager.vehicleMarker).None? ==>
              mapManager.vehicleMarker == old(mapManager.vehicleMarker) && mapManager.fallbackMarker == old(mapManager.fallbackMarker))
    {
      if isPlaying {
        PauseSimulation();
      } else {
        StartSimulation(now);
      }
    }

    /** `startSimulation`: from the last point it first resets; it then
        plays, keeps an existing start time (or takes `now`) and starts the
        interval.  Started while an interval is already stored, that
        interval leaks. */
    method StartSimulation(now: int)
      requires Valid()
      modifies this, mapManager
      ensures Valid()
      ensures isPlaying && animationInterval
      ensures mapManager.routeCoordinates == old(mapManager.routeCoordinates)
      ensures animationSpeed == old(animationSpeed) && completion == old(completion)
      ensures old(currentIndex) >= |Route()| - 1 ==>
        && currentIndex == 0 && totalDistance == 0.0 && startTime == Some(now)
        && leakedTimers == old(leakedTimers)
        && (|Route()| > 0 ==> vehicleInfo == Some(VehicleInfo(Route()[0].Position(), Route()[0].timestamp, 0.0, 0.0)))
        && (|Route()| > 0 && old(mapManager.vehicleMarker).Some? ==>
              && mapManager.vehicleMarker == Some(Route()[0].Position())
              && mapManager.fallbackMarker == (if old(mapManager.fallbackMarker).Some? then mapManager.vehicleMarker else None))
        && (|Route()| == 0 ==> vehicleInfo == old(vehicleInfo))
        && (|Route()| == 0 || old(mapManager.vehicleMarker).None? ==>
              mapManager.vehicleMarker == old(mapManager.vehicleMarker) && mapManager.fallbackMarker == old(mapManager.fallbackMarker))
      ensures old(currentIndex) < |Route()| - 1 ==>
        && currentIndex == old(currentIndex) && totalDistance == old(totalDistance)
        && startTime == (if old(startTime).Some? then old(startTime) else Some(now))
        && vehicleInfo == old(vehicleInfo)
        && mapManager.vehicleMarker == old(mapManager.vehicleMarker)
        && mapManager.fallbackMarker == old(mapManager.fallbackMarker)
        && leakedTimers == old(leakedTimers) + (if old(animationInterval) then 1 else 0)
      ensures !old(isPlaying) && old(TimersSound()) ==> TimersSound()
    {
      if currentIndex >= dataManager.GetRouteLength() - 1 {
        ResetSimulation();
      }
      isPlaying := true;
      startTime := if startTime.Some? then startTime else Some(now);
      StartAnimation();
    }

    /** `pauseSimulation`: idempotent; afterwards nothing plays and no
        interval is stored. */
    method PauseSimulation()
      requires OnRoute()
      modifies this`isPlaying, this`animationInterval
      ensures Valid()
      ensures !isPlaying && !animationInterval
      ensures leakedTimers == 0 ==> TimersSound()
    {
      isPlaying := false;
      StopAnimation();
    }

    /** `resetSimulation`: whatever the prior state, back to the first point
        with no distance, no start time and nothing playing; the marker and
        the info panel follow when the route has a first point. */
    method ResetSimulation()
      requires Valid()
      modifies this, mapManager
      ensures Valid()
      ensures currentIndex == 0 && totalDistance == 0.0 && startTime.None?
      ensures !isPlaying && !animationInterval && leakedTimers == old(leakedTimers)
      ensures animationSpeed == old(animationSpeed) && completion == old(completion)
      ensures mapManager.routeCoordinates == old(mapManager.routeCoordinates)
      ensures |Route()| > 0 ==>
        vehicleInfo == Some(VehicleInfo(Route()[0].Position(), Route()[0].timestamp, 0.0, 0.0))
      ensures |Route()| > 0 && old(mapManager.vehicleMarker).Some? ==>
        && mapManager.vehicleMarker == Some(Route()[0].Position())
        && mapManager.fallbackMarker == (if old(mapManager.fallbackMarker).Some? then mapManager.vehicleMarker else None)
      ensures |Route()| == 0 || old(mapManager.vehicleMarker).None? ==>
        mapManager.vehicleMarker == old(mapManager.vehicleMarker) && mapManager.fallbackMarker == old(mapManager.fallbackMarker)
      ensures |Route()| == 0 ==> vehicleInfo == old(vehicleInfo)
    {
      PauseSimulation();
      currentIndex := 0;
      totalDistance := 0.0;
      startTime := None;
      var startPoint := dataManager.GetStartPoint();
      if startPoint.Some? {
        mapManager.ResetVehicle(startPoint);
        if mapManager.vehicleMarker.Some? {
          SnapRoutePoint(mapManager.routeCoordinates, Route(), 0);
        }
        UpdateInfoPanel();
      }
    }

    /** `startAnimation`: stores a new interval handle, overwriting (and so
        leaking) one that may still be stored. */
    method StartAnimation()
      modifies this`animationInterval, this`leakedTimers
      ensures animationInterval
      ensures leakedTimers == old(leakedTimers) + (if old(animationInterval) then 1 else 0)
    {
      if animationInterval {
        leakedTimers := leakedTimers + 1;
      }
      animationInterval := true;
    }

    /** `stopAnimation`: clears the stored interval, if any. */
    method StopAnimation()
      modifies this`animationInterval
      ensures !animationInterval
    {
      if animationInterval {
        animationInterval := false;
      }
    }

    /** `moveToNextPoint`, the interval callback, with `getRouteCoordinates()`
        read as the map's stored `routeCoordinates`.  Before the last point it
        advances the cursor by exactly one, adds the crossed segment to the
        distance, moves the marker onto the new point and refreshes the info
        panel; landing on the last point pauses and shows the completion
        message.  At or past the last point it changes nothing. */
    method MoveToNextPoint(now: int)
      requires Valid()
      modifies this, mapManager`vehicleMarker, mapManager`fallbackMarker
      ensures Valid()
      ensures animationSpeed == old(animationSpeed) && startTime == old(startTime)
      ensures leakedTimers == old(leakedTimers)
      ensures old(TimersSound()) ==> TimersSound()
      ensures old(currentIndex) >= |Route()| - 1 ==>
        && currentIndex == old(currentIndex) && totalDistance == old(totalDistance)
        && isPlaying == old(isPlaying) && animationInterval == old(animationInterval)
        && vehicleInfo == old(vehicleInfo) && completion == old(completion)
        && mapManager.vehicleMarker == old(mapManager.vehicleMarker)
        && mapManager.fallbackMarker == old(mapManager.fallbackMarker)
      ensures old(currentIndex) < |Route()| - 1 ==>
        && currentIndex == old(currentIndex) + 1
        && totalDistance == old(totalDistance) + SegmentDistance(dataManager.haversine, Route(), currentIndex)
        && (old(mapManager.vehicleMarker).Some? ==> mapManager.vehicleMarker == Some(Route()[currentIndex].Position()))
        && (old(mapManager.vehicleMarker).None? ==> mapManager.vehicleMarker.None?)
        && mapManager.fallbackMarker ==
             (if old(mapManager.vehicleMarker).Some? && old(mapManager.fallbackMarker).Some? then mapManager.vehicleMarker
              else old(mapManager.fallbackMarker))
        && vehicleInfo == Some(TickInfo(dataManager.haversine, Route(), mapManager.routeCoordinates.Some?, currentIndex, totalDistance))
      ensures old(currentIndex) < |Route()| - 2 ==>
        isPlaying == old(isPlaying) && animationInterval == old(animationInterval) && completion == old(completion)
      ensures old(currentIndex) == |Route()| - 2 ==>
        && !isPlaying && !animationInterval
        && completion == Some(Completion(totalDistance, CalculateDuration(now)))
    {
      if currentIndex < dataManager.GetRouteLength() - 1 {
        StepForward(now);
      }
    }

    /** The guarded branch of `moveToNextPoint`: advance the cursor and, on
        the point it lands on, move the vehicle, then stop if it is the last
        one. */
    method StepForward(now: int)
      requires Valid() && currentIndex < |Route()| - 1
      modifies this, mapManager`vehicleMarker, mapManager`fallbackMarker
      ensures Valid()
      ensures animationSpeed == old(animationSpeed) && startTime == old(startTime)
      ensures leakedTimers == old(leakedTimers)
      ensures old(TimersSound()) ==> TimersSound()
      ensures currentIndex == old(currentIndex) + 1
      ensures totalDistance == old(totalDistance) + SegmentDistance(dataManager.haversine, Route(), currentIndex)
      ensures old(mapManager.vehicleMarker).Some? ==> mapManager.vehicleMarker == Some(Route()[currentIndex].Position())
      ensures old(mapManager.vehicleMarker).None? ==> mapManager.vehicleMarker.None?
      ensures mapManager.fallbackMarker ==
        (if old(mapManager.vehicleMarker).Some? && old(mapManager.fallbackMarker).Some? then mapManager.vehicleMarker
         else old(mapManager.fallbackMarker))
      ensures vehicleInfo == Some(TickInfo(dataManager.haversine, Route(), mapManager.routeCoordinates.Some?, currentIndex, totalDistance))
      ensures currentIndex < |Route()| - 1 ==>
        isPlaying == old(isPlaying) && animationInterval == old(animationInterval) && completion == old(completion)
      ensures currentIndex == |Route()| - 1 ==>
        && !isPlaying && !animationInterval
        && completion == Some(Completion(totalDistance, CalculateDuration(now)))
    {
      currentIndex := currentIndex + 1;
      var currentPoint := dataManager.GetRoutePoint(currentIndex);
      if currentPoint.Some? {
        MoveToCurrentPoint(currentPoint.value);
        if currentIndex >= dataManager.GetRouteLength() - 1 {
          PauseSimulation();
          ShowCompletionMessage(now);
        }
      }
    }

    /** What the info panel shows after a step onto point `i` of `route`
        with `distance` travelled: that point, its time, the distance, and
        the speed of the segment just crossed; over stored coordinates that
        speed assumes 5 seconds per segment, without them it uses the
        points' timestamps. */
    static function TickInfo(haversine: Haversine, route: seq<RoutePoint>, coordinatesStored: bool, i: nat, distance: real): (info: VehicleInfo)
      requires 0 < i < |route|
      ensures info.position == route[i].Position() && info.timestamp == route[i].timestamp
      ensures info.distance == distance && info.speed >= 0.0
    {
      var segment := SegmentDistance(haversine, route, i);
      var speed :=
        if coordinatesStored then CalculateSpeed(segment, SECONDS_BETWEEN_POINTS)
        else CalculateSpeed(segment, (route[i].timestamp - route[i - 1].timestamp) as real / 1000.0);
      VehicleInfo(route[i].Position(), route[i].timestamp, speed, distance)
    }

    /** The body of `moveToNextPoint` once the cursor has advanced onto
        `currentPoint`: move the marker there (through the stored coordinate
        when there is one, else through the point itself), add the segment
        just crossed and refresh the info panel. */
    method MoveToCurrentPoint(currentPoint: RoutePoint)
      requires 0 < currentIndex < |Route()| && currentPoint == Route()[currentIndex]
      requires totalDistance == Travelled(dataManager.haversine, Route(), currentIndex - 1)
      requires mapManager.routeCoordinates.Some? ==> mapManager.routeCoordinates.value == Coords(Route())
      modifies this`totalDistance, this`vehicleInfo, mapManager`vehicleMarker, mapManager`fallbackMarker
      ensures totalDistance == Travelled(dataManager.haversine, Route(), currentIndex)
      ensures totalDistance == old(totalDistance) + SegmentDistance(dataManager.haversine, Route(), currentIndex)
      ensures old(mapManager.vehicleMarker).Some? ==> mapManager.vehicleMarker == Some(currentPoint.Position())
      ensures old(mapManager.vehicleMarker).None? ==> mapManager.vehicleMarker.None?
      ensures mapManager.fallbackMarker ==
        (if old(mapManager.vehicleMarker).Some? && old(mapManager.fallbackMarker).Some? then mapManager.vehicleMarker
         else old(mapManager.fallbackMarker))
      ensures vehicleInfo == Some(TickInfo(dataManager.haversine, Route(), mapManager.routeCoordinates.Some?, currentIndex, totalDistance))
    {
      var routeCoordinates := mapManager.routeCoordinates;
      if routeCoordinates.Some? && currentIndex < |routeCoordinates.value| {
        MoveAlongCoordinates(routeCoordinates.value, currentPoint.timestamp);
        assert routeCoordinates.value[currentIndex - 1] == Route()[currentIndex - 1].Position();
        assert routeCoordinates.value[currentIndex] == currentPoint.Position();
      } else {
        MoveAlongRoutePoint(currentPoint);
      }
    }

    /** The branch of `moveToNextPoint` taken when the map has a coordinate
        for the cursor: the marker goes to that coordinate, the distance
        from the previous coordinate is added and the panel shows the
        coordinate. */
    method MoveAlongCoordinates(coords: seq<LatLng>, timestamp: int)
      requires 0 < currentIndex < |coords| && mapManager.routeCoordinates == Some(coords)
      modifies this`totalDistance, this`vehicleInfo, mapManager`vehicleMarker, mapManager`fallbackMarker
      ensures totalDistance == old(totalDistance) + Distance(dataManager.haversine, coords[currentIndex - 1], coords[currentIndex])
      ensures old(mapManager.vehicleMarker).Some? ==> mapManager.vehicleMarker == Some(coords[currentIndex])
      ensures old(mapManager.vehicleMarker).None? ==> mapManager.vehicleMarker.None?
      ensures mapManager.fallbackMarker ==
        (if old(mapManager.vehicleMarker).Some? && old(mapManager.fallbackMarker).Some? then mapManager.vehicleMarker
         else old(mapManager.fallbackMarker))
      ensures vehicleInfo == Some(ExactPanelInfo(coords[currentIndex].lat, coords[currentIndex].lng, timestamp))
    {
      var exact := coords[currentIndex];
      mapManager.UpdateVehiclePosition(exact.lat, exact.lng);
      assert LatLng(exact.lat, exact.lng) == exact;
      SnapToVertex(coords, exact);
      if currentIndex > 0 && currentIndex - 1 < |coords| {
        var prev := coords[currentIndex - 1];
        var distance := Distance(dataManager.haversine, prev, exact);
        totalDistance := totalDistance + distance;
      }
      UpdateInfoPanelWithExactCoords(exact.lat, exact.lng, timestamp);
    }

    /** The branch of `moveToNextPoint` taken without a stored coordinate:
        the marker goes to the route point itself, the distance between the
        two route points is added and the panel is refreshed as usual. */
    method MoveAlongRoutePoint(currentPoint: RoutePoint)
      requires 0 < currentIndex < |Route()| && currentPoint == Route()[currentIndex]
      requires mapManager.routeCoordinates.Some? ==> mapManager.routeCoordinates.value == Coords(Route())
      modifies this`totalDistance, this`vehicleInfo, mapManager`vehicleMarker, mapManager`fallbackMarker
      ensures totalDistance == old(totalDistance) + SegmentDistance(dataManager.haversine, Route(), currentIndex)
      ensures old(mapManager.vehicleMarker).Some? ==> mapManager.vehicleMarker == Some(currentPoint.Position())
      ensures old(mapManager.vehicleMarker).None? ==> mapManager.vehicleMarker.None?
      ensures mapManager.fallbackMarker ==
        (if old(mapManager.vehicleMarker).Some? && old(mapManager.fallbackMarker).Some? then mapManager.vehicleMarker
         else old(mapManager.fallbackMarker))
      ensures vehicleInfo == PanelInfo()
    {
      mapManager.UpdateVehiclePosition(currentPoint.latitude, currentPoint.longitude);
      assert LatLng(currentPoint.latitude, currentPoint.longitude) == currentPoint.Position();
      if mapManager.vehicleMarker.Some? {
        SnapRoutePoint(mapManager.routeCoordinates, Route(), currentIndex);
      }
      if currentIndex > 0 {
        var distance := dataManager.CalculateDistanceBetweenPoints(currentIndex - 1, currentIndex);
        totalDistance := totalDistance + distance;
      }
      UpdateInfoPanel();
    }

    /** Once the cursor is on the last point, the distance counted is the
        whole length of the route: on a valid state, each segment was
        counted exactly once. */
    lemma LastPointCountsWholeRoute()
      requires Valid() && |Route()| > 0 && currentIndex == |Route()| - 1
      ensures totalDistance == PathLength(dataManager.haversine, Route())
      ensures totalDistance == SegmentSum(dataManager.haversine, Route())
    {
      PathLengthIsSegmentSum(dataManager.haversine, Route());
    }

    /** `moveToNextPoint` as the source has it: `getRouteCoordinates` is not
        a method of `MapManager`, so the call `getRouteCoordinates()` throws
        a `TypeError` right after the cursor has advanced, and the rest of
        the callback never runs; the interval goes on firing. */
    method MoveToNextPointAsWritten()
      modifies this`currentIndex
      ensures old(currentIndex) < |Route()| - 1 ==> currentIndex == old(currentIndex) + 1
      ensures old(currentIndex) >= |Route()| - 1 ==> currentIndex == old(currentIndex)
    {
      if currentIndex < dataManager.GetRouteLength() - 1 {
        currentIndex := currentIndex + 1;
        var currentPoint := dataManager.GetRoutePoint(currentIndex);
        // this.mapManager.getRouteCoordinates(): TypeError, the callback ends here
      }
    }

    /** What `updateInfoPanel` shows: the reset panel when the cursor is on
        no point, else that point, the distance so far and the speed from
        the previous point's timestamp (0 on the first point). */
    function PanelInfo(): (info: Option<VehicleInfo>)
      reads this, dataManager
      ensures info.None? <==> !(0 <= currentIndex < |dataManager.routeData|)
      ensures info.Some? ==>
        && info.value.position == dataManager.routeData[currentIndex].Position()
        && info.value.timestamp == dataManager.routeData[currentIndex].timestamp
        && info.value.distance == totalDistance
        && info.value.speed >= 0.0
        && (currentIndex == 0 ==> info.value.speed == 0.0)
        && (currentIndex > 0 ==> info.value.speed == dataManager.CalculateSpeedBetweenPoints(currentIndex - 1, currentIndex))
    {
      var currentPoint := dataManager.GetRoutePoint(currentIndex);
      if currentPoint.None? then None
      else
        var speed := if currentIndex > 0 then dataManager.CalculateSpeedBetweenPoints(currentIndex - 1, currentIndex) else 0.0;
        Some(VehicleInfo(currentPoint.value.Position(), currentPoint.value.timestamp, speed, totalDistance))
    }

    /** `updateInfoPanel`. */
    method UpdateInfoPanel()
      modifies this`vehicleInfo
      ensures vehicleInfo == PanelInfo()
    {
      vehicleInfo := PanelInfo();
    }

    /** What `updateInfoPanelWithExactCoords` shows: the given position and
        time and the distance so far; the speed is the distance from the
        previous stored coordinate over an assumed 5 seconds, or 0 on the
        first point or when that coordinate is missing. */
    function ExactPanelInfo(latitude: real, longitude: real, timestamp: int): (info: VehicleInfo)
      reads this, mapManager
      ensures info.position == LatLng(latitude, longitude)
      ensures info.timestamp == timestamp && info.distance == totalDistance
      ensures info.speed >= 0.0
      ensures !(currentIndex > 0 && mapManager.routeCoordinates.Some? && currentIndex - 1 < |mapManager.routeCoordinates.value|) ==>
        info.speed == 0.0
      ensures currentIndex > 0 && mapManager.routeCoordinates.Some? && currentIndex - 1 < |mapManager.routeCoordinates.value| ==>
        info.speed == CalculateSpeed(
          Distance(dataManager.haversine, mapManager.routeCoordinates.value[currentIndex - 1], LatLng(latitude, longitude)),
          SECONDS_BETWEEN_POINTS)
    {
      var speed :=
        if currentIndex > 0 && mapManager.routeCoordinates.Some? && currentIndex - 1 < |mapManager.routeCoordinates.value| then
          var prev := mapManager.routeCoordinates.value[currentIndex - 1];
          CalculateSpeed(Distance(dataManager.haversine, prev, LatLng(latitude, longitude)), SECONDS_BETWEEN_POINTS)
        else 0.0;
      VehicleInfo(LatLng(latitude, longitude), timestamp, speed, totalDistance)
    }

    /** `updateInfoPanelWithExactCoords`. */
    method UpdateInfoPanelWithExactCoords(latitude: real, longitude: real, timestamp: int)
      modifies this`vehicleInfo
      ensures vehicleInfo == Some(ExactPanelInfo(latitude, longitude, timestamp))
    {
      vehicleInfo := Some(ExactPanelInfo(latitude, longitude, timestamp));
    }

    /** `setAnimationSpeed`: stores the period and, while playing, replaces
        the running interval by one with the new period. */
    method SetAnimationSpeed(speed: int)
      requires Valid()
      modifies this`animationSpeed, this`animationInterval, this`leakedTimers
      ensures Valid()
      ensures animationSpeed == speed
      ensures animationInterval == (old(animationInterval) || isPlaying)
      ensures leakedTimers == old(leakedTimers)
      ensures old(TimersSound()) ==> TimersSound()
    {
      animationSpeed := speed;
      if isPlaying {
        StopAnimation();
        StartAnimation();
      }
    }

    /** `showCompletionMessage`. */
    method ShowCompletionMessage(now: int)
      modifies this`completion
      ensures completion == Some(Completion(totalDistance, CalculateDuration(now)))
    {
      completion := Some(Completion(totalDistance, CalculateDuration(now)));
    }

    /** `calculateDuration` at clock reading `now` (milliseconds): "0:00"
        without a start time, else the whole seconds since the start in
        `M:SS` form. */
    function CalculateDuration(now: int): (text: string)
      reads this
      ensures startTime.None? ==> text == "0:00"
      ensures startTime.Some? && now >= startTime.value ==>
        ParseDuration(text) == Some((now - startTime.value) / 1000)
    {
      if startTime.None? then "0:00"
      else
        var duration := (now - startTime.value) / 1000;
        FormatDurationRoundTrip(duration);
        FormatDuration(duration)
    }

    /** `getState`: the snapshot, whose distance is that of the segments up
        to its cursor whenever the simulation is in a valid state. */
    function GetState(): (s: State)
      reads this, dataManager, mapManager
      ensures s.isPlaying == isPlaying && s.currentIndex == currentIndex && s.startTime == startTime
      ensures s.totalDistance == totalDistance && s.animationSpeed == animationSpeed
      ensures Valid() ==>
        && 0 <= s.currentIndex && (s.currentIndex == 0 || s.currentIndex < |Route()|)
        && s.totalDistance == Travelled(dataManager.haversine, Route(), s.currentIndex)
        && 0.0 <= s.totalDistance <= PathLength(dataManager.haversine, Route())
    {
      TravelledWithinPath(dataManager.haversine, dataManager.routeData, currentIndex);
      State(isPlaying, currentIndex, totalDistance, animationSpeed, startTime)
    }
  }

  /** A two-point route, started and given one tick by the source's
      `moveToNextPoint`: the cursor is on the last point, yet the simulation
      still plays and no distance was counted, although the route is 1 km
      long under a distance that makes every segment 1 km. */
  method AsWrittenTickLosesDistance() returns (playing: bool, index: int, counted: real, routeLength: real)
    ensures playing && index == 1 && counted == 0.0 && routeLength == 1.0
  {
    var unitDistance: Haversine := (lat1: real, lon1: real, lat2: real, lon2: real) => 1.0;
    var sim := new VehicleSimulation(unitDistance);
    sim.Initialize(Some([RoutePoint(17.385044, 78.486671, 0), RoutePoint(17.385070, 78.486700, 5000)]));
    sim.StartSimulation(0);
    sim.MoveToNextPointAsWritten();
    playing, index, counted := sim.isPlaying, sim.currentIndex, sim.totalDistance;
    routeLength := sim.dataManager.CalculateTotalDistance();
  }

  /** The same route and tick with the corrected `moveToNextPoint`: the
      simulation has stopped on the last point and counted the whole route. */
  method CorrectedTickCompletesRoute() returns (playing: bool, index: int, counted: real, routeLength: real)
    ensures !playing && index == 1 && counted == 1.0 && routeLength == 1.0
  {
    var unitDistance: Haversine := (lat1: real, lon1: real, lat2: real, lon2: real) => 1.0;
    var sim := new VehicleSimulation(unitDistance);
    sim.Initialize(Some([RoutePoint(17.385044, 78.486671, 0), RoutePoint(17.385070, 78.486700, 5000)]));
    sim.StartSimulation(0);
    sim.MoveToNextPoint(1000);
    playing, index, counted := sim.isPlaying, sim.currentIndex, sim.totalDistance;
    routeLength := sim.dataManager.CalculateTotalDistance();
  }
}
