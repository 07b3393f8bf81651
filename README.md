# Vehicle route playback — a Dafny model

This project models the browser app that plays a recorded vehicle route back
on a map. A timer with a fixed period moves the vehicle one recorded point at
a time, by index: there is no interpolation between points, no projection
onto route segments and no list of subscribers. A step is meant to add the
length of the segment just crossed to the distance travelled, snap the
marker onto the nearest route vertex, refresh the info panel and pause on
the last point. As written, the step throws right after advancing the index
(see "## Findings"); the model proves its properties about the corrected
step, `MoveToNextPoint`, and models the step as written separately.

The model covers four parts of the code:

- `Playback` (js/VehicleSimulation.js): the playback state machine is a class
  whose fields are the ones the source mutates: `currentIndex`, `isPlaying`,
  `totalDistance`, `startTime`, `animationInterval` and `animationSpeed`.
  It also holds what the info panel and the completion message last
  received.
- `RouteData` (js/DataManager.js): the route store keeps the route as a
  `seq<RoutePoint>`. It has the empty-means-fallback loading decision, the
  five-point fallback route, bounds-checked accessors, the total-distance
  loop, and pairwise distance and speed.
- `RouteMap` (js/MapManager.js): holds the stored route coordinates, the
  markers as plain positions, and the nearest-vertex scan
  `getExactRoutePosition`.
- `Utils` (js/utils.js): `calculateSpeed`, and `formatDuration` with a
  reader that parses its `M:SS` text back. The haversine distance is a
  parameter of type `Haversine`: any function of four reals whose result is
  never negative. The trigonometry is not modelled.

Time appears as plain integers. Route timestamps are milliseconds since the
epoch. Every operation that reads the clock (`new Date()`) takes the reading
as a parameter `now`. The interval timer is the boolean `animationInterval`,
which says whether an interval handle is stored. A ghost counter
`leakedTimers` counts intervals whose handle was overwritten while still
running. Nothing can clear those intervals any more.

The state invariant `VehicleSimulation.Valid` keeps the cursor on the route
(`0 <= currentIndex <= max(0, length - 1)`). It holds `totalDistance` at
exactly the sum of the segments `1..currentIndex`. It forbids a route of two
or more points from playing while on its last point. It also ties the map's
stored coordinates to the route. Every operation that changes the state
preserves it, except `MoveToNextPointAsWritten`, the step as written, which
advances the index without adding the segment's distance.

## Model

| member | source | states |
|---|---|---|
| Utils.Distance | js/utils.js:13-23 | the haversine distance between two positions is never negative (assumed of the opaque function through its type) |
| Utils.CalculateSpeed | js/utils.js:40-42 | a non-positive time gives speed 0; a non-negative distance gives a non-negative speed |
| Utils.SpeedCoversDistance | js/utils.js:41 | over a positive time, speed × time = distance × 3600 (km/h against km and seconds) |
| Utils.NatToString | js/utils.js:52 | the decimal text of a number is non-empty, all digits, and one digit exactly below 10 |
| Utils.NatToStringRoundTrip | js/utils.js:52 | reading the decimal text of `n` back gives `n` |
| Utils.PadStart2 | js/utils.js:52 | `padStart(2, '0')` keeps text of two or more characters and otherwise puts zeros in front of it up to length 2 |
| Utils.TruncatedRemainder | js/utils.js:51 | JavaScript's `%` by a positive divisor: in `[0, b)` for a non-negative dividend, in `(-b, 0]` for a negative one |
| Utils.TruncatedDivision | js/utils.js:51 | the dividend is the quotient rounded toward zero times the divisor plus the remainder, which pins `%` together with the sign and range above |
| Utils.FormatDurationOfMinusFive | js/utils.js:49-53 | a negative input is not rejected: `formatDuration(-5)` is `"-1:-5"` |
| Utils.FormatDuration | js/utils.js:49-53 | `formatDuration(0)` is `"0:00"` |
| Utils.ParseTwoDigits | js/utils.js:52 | two digits read back as ten times the first plus the second |
| Utils.SecondsFieldRoundTrip | js/utils.js:51-52 | the seconds field of a duration in `[0, 60)` is exactly its two digits and reads back as that number |
| Utils.FormatDurationShape | js/utils.js:49-53 | for natural `s` the text is `floor(s/60)` in decimal, a colon, and the two digits of `s % 60` |
| Utils.ParseDurationOfParts | js/utils.js:50-52 | `M:SS` text built from readable parts reads back as `M * 60 + SS` |
| Utils.FormatDurationRoundTrip | js/utils.js:49-53 | parsing the `M:SS` text of natural `s` gives `s` back |
| RouteData.SegmentDistance | js/DataManager.js:134-143 | the distance of segment `(i-1, i)` is never negative |
| RouteData.Travelled | js/DataManager.js:131-147 | the sum of segments `1..k` is never negative |
| RouteData.TravelledMonotone | js/DataManager.js:134-144 | the partial sums never decrease as `k` grows |
| RouteData.TravelledWithinPath | js/DataManager.js:131-147 | every partial sum lies between 0 and the length of the whole route |
| RouteData.TravelledDropFirst | js/DataManager.js:134-144 | the partial sum of a route is its first segment plus the partial sum of the route without its first point |
| RouteData.PathLengthIsSegmentSum | js/DataManager.js:131-147 | the running sum the loop accumulates equals the independent first-segment-plus-rest sum |
| RouteData.FallbackRoute | js/DataManager.js:51-77 | the fallback route has exactly five points, 5 seconds apart |
| RouteData.DataManager.constructor | js/DataManager.js:5-7 | a new store holds the empty route |
| RouteData.DataManager.LoadRouteData | js/DataManager.js:26-40 | the stored and returned route is never empty: a non-empty parse is kept, and a failed or empty parse is replaced by the fallback route |
| RouteData.DataManager.CreateFallbackData | js/DataManager.js:48-81 | stores and returns exactly the five fallback points |
| RouteData.DataManager.GetRouteData | js/DataManager.js:87-89 | returns the stored route |
| RouteData.DataManager.GetRoutePoint | js/DataManager.js:96-101 | a point comes back if and only if `0 <= index < length`, and it is `routeData[index]` |
| RouteData.DataManager.GetRouteLength | js/DataManager.js:107-109 | the number of stored points |
| RouteData.DataManager.GetStartPoint | js/DataManager.js:115-117 | missing if and only if the route is empty, otherwise the first point |
| RouteData.DataManager.GetEndPoint | js/DataManager.js:123-125 | missing if and only if the route is empty, otherwise the last point |
| RouteData.DataManager.CalculateTotalDistance | js/DataManager.js:131-147 | the loop returns the sum of `Dist(p[i-1], p[i])` over `1..length-1`, which is non-negative and is 0 for routes of 0 or 1 points |
| RouteData.DataManager.CalculateDistanceBetweenPoints | js/DataManager.js:155-167 | 0 when either index is out of range; otherwise the distance between the two points, which is the segment distance for consecutive indices |
| RouteData.DataManager.CalculateSpeedBetweenPoints | js/DataManager.js:175-188 | 0 when either index is out of range or when time does not advance; otherwise distance over the timestamp difference in seconds, never negative |
| RouteMap.Coords | js/MapManager.js:41 | one coordinate per route point, each the point's position |
| RouteMap.SqDistZero | js/MapManager.js:204-207 | the squared distance is never negative and is zero exactly between equal positions |
| RouteMap.NearestIndex | js/MapManager.js:200-215 | the index the scan ends on is a valid vertex index |
| RouteMap.Snap | js/MapManager.js:194-216 | without a stored route, or with an empty one, the query itself; otherwise one of the route's vertices |
| RouteMap.NearestIndexIsFirstNearest | js/MapManager.js:203-213 | the scan's vertex is no farther than any vertex, and every earlier vertex is strictly farther, so ties go to the earliest |
| RouteMap.FirstNearestUnique | js/MapManager.js:209 | with the strict `<` tie-break there is only one first nearest vertex |
| RouteMap.SnapIsFirstNearest | js/MapManager.js:194-216 | a position is the first nearest vertex (or the query, without a route) if and only if it is what the scan returns |
| RouteMap.SnapToVertex | js/MapManager.js:204-213 | a query equal to a vertex snaps to itself |
| RouteMap.SnapRoutePoint | js/MapManager.js:41 | with the coordinates taken from the route, or none stored, every route point snaps to its own position |
| RouteMap.MapManager.constructor | js/MapManager.js:3-8 | no route coordinates and no markers |
| RouteMap.MapManager.CreateRoute | js/MapManager.js:37-60 | stores the route's coordinates |
| RouteMap.MapManager.GetExactRoutePosition | js/MapManager.js:194-216 | the strict-`<` scan over the vertices returns exactly `Snap` of the query |
| RouteMap.MapManager.AddVehicleMarker | js/MapManager.js:92-133 | without a start point nothing changes; otherwise the vehicle marker is at the snapped start and the fallback marker at the raw start |
| RouteMap.MapManager.UpdateVehiclePosition | js/MapManager.js:170-186 | nothing without a vehicle marker; otherwise the marker, and the fallback marker if it exists, take the snapped position |
| RouteMap.MapManager.ResetVehicle | js/MapManager.js:248-257 | nothing without a marker or a start point; otherwise as `UpdateVehiclePosition` for the start point |
| Playback.VehicleSimulation.constructor | js/VehicleSimulation.js:5-20 | index 0, not playing, no distance, no start time, no timer, period 1000 ms, empty managers |
| Playback.VehicleSimulation.Initialize | js/VehicleSimulation.js:37-44 | after loading, the route is non-empty, its coordinates are on the map, both markers are on the first point and the panel shows that point with speed 0 and distance 0 |
| Playback.VehicleSimulation.TogglePlayPause | js/VehicleSimulation.js:64-70 | flips `isPlaying` and keeps the invariant and the one-timer-while-playing discipline; pausing touches nothing else; starting from the last point resets first, with both markers and the panel as after `ResetSimulation` (the panel unchanged on an empty route) |
| Playback.VehicleSimulation.StartSimulation | js/VehicleSimulation.js:75-85 | always ends playing with an interval stored; from the last point it first resets (index 0, distance 0, start at `now`); the vehicle marker, if any, moves to the first point and the fallback marker follows it when it exists, and with no marker both stay as they were; on an empty route the panel stays as it was; otherwise it keeps the position, the markers and an existing start time; starting while a handle is stored leaks that interval |
| Playback.VehicleSimulation.PauseSimulation | js/VehicleSimulation.js:90-94 | idempotent: afterwards not playing, no interval stored, invariant restored |
| Playback.VehicleSimulation.ResetSimulation | js/VehicleSimulation.js:99-110 | whatever the prior state: index 0, distance 0, no start time, not playing, no interval; when there is a first point, the panel returns to it, and so does an existing vehicle marker, followed by the fallback marker when that exists; without a vehicle marker both markers stay as they were |
| Playback.VehicleSimulation.StartAnimation | js/VehicleSimulation.js:115-119 | stores a new interval; one still stored is leaked |
| Playback.VehicleSimulation.StopAnimation | js/VehicleSimulation.js:124-129 | no interval stored afterwards |
| Playback.VehicleSimulation.MoveToNextPoint | js/VehicleSimulation.js:134-187 | before the last point: index up by exactly 1, the new segment's non-negative distance added, an existing vehicle marker on the new point with the fallback marker following it when that exists, panel refreshed; landing on the last point pauses, clears the interval and shows distance and duration; at or past the last point (so always on a route of 0 or 1 points) nothing changes |
| Playback.VehicleSimulation.StepForward | js/VehicleSimulation.js:135-185 | the guarded branch of a tick, with the same outcome as above, markers included |
| Playback.VehicleSimulation.TickInfo | js/VehicleSimulation.js:142-178 | the panel after a step shows the new point, its time, the distance so far and a non-negative speed |
| Playback.VehicleSimulation.MoveToCurrentPoint | js/VehicleSimulation.js:139-178 | both branches add exactly the segment `(i-1, i)` and put an existing vehicle marker on point `i`, the fallback marker following it when that exists |
| Playback.VehicleSimulation.MoveAlongCoordinates | js/VehicleSimulation.js:142-159 | the branch over stored coordinates adds the distance between the two coordinates, moves an existing vehicle marker (and the fallback marker, when it exists) to that coordinate and shows it |
| Playback.VehicleSimulation.MoveAlongRoutePoint | js/VehicleSimulation.js:160-178 | the branch without coordinates adds the segment distance, moves an existing vehicle marker (and the fallback marker, when it exists) to the point and refreshes the panel |
| Playback.VehicleSimulation.LastPointCountsWholeRoute | js/VehicleSimulation.js:149-153 | on the last point the distance counted is the length of the whole route |
| Playback.VehicleSimulation.MoveToNextPointAsWritten | js/VehicleSimulation.js:134-141 | as written, a tick only advances the index before the call that throws |
| Playback.VehicleSimulation.PanelInfo | js/VehicleSimulation.js:192-216 | the reset panel if and only if the index is on no point; otherwise that point, the distance so far, and speed 0 at index 0 or else the speed from the previous point |
| Playback.VehicleSimulation.UpdateInfoPanel | js/VehicleSimulation.js:192-216 | the panel shows `PanelInfo` |
| Playback.VehicleSimulation.ExactPanelInfo | js/VehicleSimulation.js:224-244 | the given position and time, the distance so far, and speed 0 at index 0, without coordinates or when the previous coordinate is missing, else the speed over the distance from the previous coordinate in an assumed 5 s |
| Playback.VehicleSimulation.UpdateInfoPanelWithExactCoords | js/VehicleSimulation.js:224-244 | the panel shows `ExactPanelInfo` |
| Playback.VehicleSimulation.SetAnimationSpeed | js/VehicleSimulation.js:250-258 | stores the period; while playing, the interval is replaced without leaking one |
| Playback.VehicleSimulation.ShowCompletionMessage | js/VehicleSimulation.js:271-274 | the message carries the distance and the duration |
| Playback.VehicleSimulation.CalculateDuration | js/VehicleSimulation.js:280-286 | `"0:00"` without a start time; otherwise text that reads back as the whole seconds since the start |
| Playback.VehicleSimulation.GetState | js/VehicleSimulation.js:292-300 | the snapshot carries the playing flag, index, distance, period and start time; under the invariant its distance is the sum of the segments up to its index and lies between 0 and the route length |
| Playback.AsWrittenTickLosesDistance | js/VehicleSimulation.js:141 | on a two-point route a tick of the code as written leaves the index on the last point, still playing, with 0 km counted against a 1 km route |
| Playback.CorrectedTickCompletesRoute | js/VehicleSimulation.js:134-187 | the same tick with the corrected method stops on the last point with the whole 1 km counted |

## Left out

- The asynchronous loading steps (`initialize`'s waits and `fetch`), the JSON parse and the Leaflet map set-up (`mapManager.initialize`) are left out. `LoadRouteData` takes the parse outcome as an `Option` (`None` for an HTTP or parse error). A parse that is not an array is not modelled.
- `Initialize` does not model `createRoute` failing on a missing map, nor the `catch` that then shows an error.
- Leaflet and DOM calls are foreign code: the map, tiles, polyline, icons, popups, `panTo`/`centerOnVehicle`, `fitBounds`, `checkMarkerVisibility`, `testMarkerDOM`, `refresh` and `toggleRoute`. Markers are plain positions.
- `setInterval`/`clearInterval` and `new Date()`: the timer is a stored-handle flag, the clock a parameter `now`. Ticks are calls to `MoveToNextPoint`; the animation period is stored but has no effect.
- Haversine trigonometry and `deg2rad` are floating point. `Distance` is the opaque `Haversine` parameter, non-negative by its type, so `EARTH_RADIUS` does not appear.
- Reals are exact: no floating-point rounding, `NaN` or `Infinity`. The `Infinity` start of `minDistance` is `None`.
- Timestamps are integer milliseconds. Parsing ISO strings with `new Date(...)`, and an unparsable string, are not modelled.
- Formatting with `toFixed` and `toLocaleString` and the text of the info panel are not modelled; the panel is the `VehicleInfo` value it receives.
- `Utils.NatToString` is not `Number.prototype.toString` for numbers from 1e21 (22 digits) on, which it writes in exponent notation.
- `getExactRoutePosition` compares squared distances. The source compares their square roots, which order the vertices the same way.
- js/UIController.js, js/main.js and js/config.js are not part of this model. Only the constant `ANIMATION.DEFAULT_SPEED` (1000) is used. The same goes for the console and DOM helpers of js/utils.js (`log`, `logError`, `showError`, `showCompletionMessage`).
- A route of exactly one point that is started keeps playing, and the interval keeps firing without effect; `Valid` allows this, as the source does.

## Findings

| source | as written | input that shows it | evidently intended | confidence | as-written member | corrected member |
|---|---|---|---|---|---|---|
| js/VehicleSimulation.js:141 | `moveToNextPoint` calls `this.mapManager.getRouteCoordinates()`, but `MapManager` defines no such method; the call throws a `TypeError` right after `currentIndex++`, so no distance is added, the marker and panel stay put, and reaching the last point never pauses (line 228 has the same call) | a two-point route, started, one tick: index 1, still playing, 0 km counted while the route is 1 km | read the coordinates that `createRoute` stores in `mapManager.routeCoordinates` | high, not executed | Playback.VehicleSimulation.MoveToNextPointAsWritten, Playback.AsWrittenTickLosesDistance | Playback.VehicleSimulation.MoveToNextPoint, Playback.CorrectedTickCompletesRoute |
