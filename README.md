# CatchTheSun — a Dafny model of the alignment finder's decision logic

CatchTheSun lets a user click two points on a map, an observer and an object,
and then searches a date window for the sunrise or sunset whose solar azimuth
best matches the bearing from the observer to the object. This project models
the decision and selection logic of `catchthesun.py` around that astronomy:

- `Geodesy` — the observer/object `GeoPoint` and the final step of
  `calculate_azimuth`, which folds a raw `atan2` angle in degrees onto
  [0, 360) by adding 360 to a negative value.
- `Display` — the `.2f` rendering the application writes into its read-only
  fields. The azimuth field is read back with `float(...)` as the target of
  the search, so the target is the rounded bearing. Rounding is to the nearest
  hundredth, with an exact half going to the even neighbour.
- `Matching` — `np.argmin(np.abs(np.array(azimuths) - target))`: the first
  index with the smallest *linear* absolute difference, and no result for an
  empty list.
- `LocalTime` — the offset east of UTC, which is `-timezone` when `tm_isdst`
  is 0 and `-altzone` otherwise, and the conversion of the matched UTC
  instant to local time. `datetime.timezone` refuses an offset of a whole day
  or more.
- `CatchTheSun` — the `App` class. It holds the two coordinate slots, the
  selected radio button and the result fields. `UpdateCoordinates` routes a
  map click into a slot. `CalculateAzimuthAndTime` does the request:
  - it checks that both slots are set and that start < end;
  - a loop builds the aligned `azimuths`/`times` lists;
  - it picks the best match and writes the closest azimuth and the local time.

Trigonometry and the ephemeris are functions fixed when the `App` is
constructed:
- `bearingDegrees` is `degrees(atan2(x, y))` of the spherical bearing formula;
- `haversine` is the great-circle distance;
- `findRiseSet` is `find_discrete(..., sunrise_sunset(...))`;
- `sunAzimuth` is the apparent azimuth from `altaz()`.

Instants are whole seconds since the epoch, UTC. A coordinate slot holds
either a parsed point or nothing. A slot holding a point stands for slot text
containing a `,`.

Three behaviours of the code are worth stating:
- An empty scan is not reported as a typed error. `np.argmin` of an empty
  array raises, so no field is written. The model returns `NoEvents` and
  changes nothing (see the `CalculateAzimuthAndTime` line under "Left out").
- The DST flag is the host's flag at the moment of the request
  (`time.localtime()`), not the flag at the matched instant. It is an input
  here (`tmIsdst`), and the model does not tie it to the matched date.
- An offset of 24 hours or more makes `datetime.timezone` raise after the
  closest azimuth has already been written (line 292 runs before line 297).
  The model keeps this partial update and returns `OffsetOutOfRange`.

## Model

| member | source | states |
|---|---|---|
| Geodesy.NormalizeBearing | catchthesun.py:41-42 | for a raw angle in [-180, 180] the result lies in [0, 360); the result is the input or the input plus one full turn, and equals the input exactly when it is non-negative |
| Geodesy.CalculateAzimuth | catchthesun.py:26-44 | the bearing from observer to target is the normalised raw atan2 angle: in [0, 360) when the raw angle is in [-180, 180], and the same direction as the raw angle |
| Geodesy.NormalizeBearingUnique | catchthesun.py:37-44 | the normalised bearing is the only value in [0, 360) that differs from the raw angle by a whole number of turns |
| Geodesy.NormalizeBearingIdempotent | catchthesun.py:41-44 | normalising an already normalised bearing leaves it unchanged |
| Geodesy.NormalizeBearingCompassPoints | catchthesun.py:41-42 | 90 stays 90, -90 becomes 270, and both -180 and 180 map to 180 |
| Display.Hundredths | catchthesun.py:292 | the hundredths shown by `.2f` are the integer nearest to 100·x, and a value exactly halfway goes to the even integer |
| Display.TwoDecimals | catchthesun.py:432-433 | the value a field shows after `.2f` formatting is within 0.005 of the number formatted |
| Display.HundredthsUnique | catchthesun.py:292 | any integer that is nearest to 100·x and even on a tie is the one `.2f` shows, so the rendering is fully determined |
| Display.HundredthsTies | catchthesun.py:432 | 0.125 renders as 0.12 and 0.375 as 0.38 (ties to even), and a bearing of 359.996 renders as 360.00 |
| LocalTime.LocalOffset | catchthesun.py:295 | the offset east of UTC cancels `timezone` when `tm_isdst` is 0 and cancels `altzone` for any other flag value |
| LocalTime.ToLocal | catchthesun.py:296-298 | local time lies exactly `offset` seconds after the UTC instant, for an offset `datetime.timezone` accepts (strictly inside one day either side of UTC) |
| LocalTime.ToUtc | catchthesun.py:296-298 | the inverse conversion: the UTC instant lies exactly `offset` seconds before the local reading |
| LocalTime.LocalRoundTrip | catchthesun.py:296-298 | converting a UTC instant to local time and back gives it back, and the other way round |
| LocalTime.ToLocalMonotone | catchthesun.py:298 | conversion to local time preserves the order of instants in both directions |
| LocalTime.LocalOffsetExample | catchthesun.py:295 | with timezone -7200 and altzone -10800 the offset is +7200 for `tm_isdst` 0, and +10800 for 1 and for -1 |
| Matching.AbsDiff | catchthesun.py:290 | the difference between azimuth and target is non-negative and is one of the two linear differences, never a wrapped one |
| Matching.ArgMin | catchthesun.py:290 | on a non-empty list the index is in bounds, no azimuth is nearer to the target, and every earlier azimuth is strictly farther (first occurrence) |
| Matching.BestMatch | catchthesun.py:283-290 | there is no best match exactly when the event list is empty; otherwise it is the first minimum of the linear difference |
| Matching.FirstMinUnique | catchthesun.py:290 | two indices that both satisfy the first-minimum rule are equal |
| Matching.BestMatchCharacterized | catchthesun.py:290 | `BestMatch` picks index k if and only if k satisfies the first-minimum rule |
| Matching.BestMatchEarliest | catchthesun.py:278-290 | when the rise/set instants are chronological, the chosen event is the earliest of all events whose azimuth is equally near the target |
| Matching.LinearNotCircular | catchthesun.py:290 | with target 5 and azimuths [355, 15] the event at 15 is chosen: the difference is linear, not circular |
| Matching.TieGoesToFirst | catchthesun.py:290 | with azimuths [10, 350, 10], target 350 picks the second event and target 10 picks the first, not the third |
| CatchTheSun.SunAzimuths | catchthesun.py:280-288 | the azimuth list has one entry per rise/set instant, aligned with it position by position, each the sun's azimuth at that instant |
| CatchTheSun.Gate | catchthesun.py:264-270 | the scan goes ahead exactly when both slots hold a point and start < end; an unset slot gives NotSelected, and otherwise start ≥ end gives InvalidWindow |
| CatchTheSun.ScanMatchAligned | catchthesun.py:283-298 | the reported azimuth and the reported instant belong to the same event, which is in bounds and is the first whose azimuth is nearest to the target |
| CatchTheSun.App.constructor | catchthesun.py:111-125 | at start-up both slots and every output field are empty and the Observer button is checked |
| CatchTheSun.App.SelectSlot | catchthesun.py:121-132 | checking a radio button selects the slot later clicks go to and changes nothing else |
| CatchTheSun.App.UpdateCoordinates | catchthesun.py:413-433 | an empty click changes nothing; otherwise only the selected slot is overwritten; azimuth and distance are recomputed only once both slots are set, otherwise left as they were; the fields keep showing the two-decimal bearing and distance of the two slots |
| CatchTheSun.App.CalculateAzimuthAndTime | catchthesun.py:249-303 | a request that fails the gate changes no field; an empty scan changes no field; otherwise the closest azimuth field gets the first best match's azimuth and the time field gets the same event's instant in local time; if the offset is refused, the time field is left unchanged |

## Left out

- CatchTheSun.App.CalculateAzimuthAndTime: the two raising paths are modelled as a returned status, not as an exception. `np.argmin` of an empty list (line 290) and `datetime.timezone` refusing the offset (line 297) raise out of the Qt slot; the model returns `Failed(NoEvents)` or `Failed(OffsetOutOfRange)` with the fields as the program leaves them at the raise. What follows the escaped exception in the program is not modelled: under PyQt5's default handling an exception escaping a slot aborts the process, so no further clicks or requests happen, whereas the model's `App` stays usable.
- The PyQt5 window, widgets, layouts, the processing dialog, the error message boxes and the signal/slot plumbing (`CoordinateHandler`, marker colours). These are UI; an error box becomes a `Failed` status.
- The folium map, the injected JavaScript and the `map.html` file creation and removal. These are rendering and file I/O.
- The ephemeris (`load`, `Topos`, `find_discrete`, `sunrise_sunset`, `observe().apparent().altaz()`) is given as the functions `findRiseSet` and `sunAzimuth`. An ephemeris failure (for example, data missing for the date range) is not modelled: these functions are total.
- The spherical trigonometry of `calculate_azimuth` (lines 26-39) and `haversine` (lines 46-64) is floating-point sin/cos/atan2/sqrt. It is given as the functions `bearingDegrees` and `haversine`. So the reverse bearing differing by 180 degrees, distance symmetry and the known values are not stated.
- Parsing of the "lat,lon" text with `float` (lines 275, 423). A slot holds a parsed point or nothing. A non-empty click without a comma, or one that does not parse, is not modelled: the map always sends "lat,lon".
- Converting the calendar dates of the date pickers into timescale instants (lines 250-266). Start and end are given as UTC instants, and the `.tt` comparison is the comparison of these instants.
- Reading `time.timezone`, `time.altzone` and `time.localtime().tm_isdst` from the host (line 295). They are parameters.
- Calendar formatting of the local time as `%Y-%m-%d %H:%M:%S` (line 299) and the sub-second part of instants. Times are whole seconds.
- IEEE floating-point behaviour (NaN, rounding of subtraction) is not modelled. Azimuths and bearings are exact reals, and `float` of the two-decimal text is taken to be the exact decimal value.
