/** The application state of the sun-alignment finder: the two coordinate
    slots filled by map clicks, the selected slot, and the read-only result
    fields, with the click handler and the "find the azimuth and time" request.
    The geometry and the ephemeris are fixed when the application starts and
    are given as functions. */
module CatchTheSun {

  import opened Wrappers
  import opened Geodesy
  import opened Display
  import opened LocalTime
  import opened Matching

  /** Why a request produced no (or only a partial) result. */
  datatype Error =
    | NotSelected        // a coordinate slot is still empty
    | InvalidWindow      // the start date is not earlier than the end date
    | NoEvents           // no sunrise or sunset in the window: `np.argmin` of an empty array raises
    | OffsetOutOfRange   // `datetime.timezone` refuses an offset of a day or more

  datatype Status = Done | Failed(error: Error)

  /** The sun's apparent azimuth at each rise/set instant, position by
      position, as seen from `location`. */
  function SunAzimuths(sunAzimuth: (GeoPoint, int) -> real, location: GeoPoint, instants: seq<int>): (azimuths: seq<real>)
    ensures |azimuths| == |instants|
    ensures forall i :: 0 <= i < |instants| ==> azimuths[i] == sunAzimuth(location, instants[i])
  {
    if instants == [] then []
    else SunAzimuths(sunAzimuth, location, instants[..|instants| - 1]) + [sunAzimuth(location, instants[|instants| - 1])]
  }

  /** The checks made before any scanning: both slots must hold a point, and
      the start of the window must be strictly earlier than its end. */
  function Gate(observer: Option<GeoPoint>, target: Option<GeoPoint>, start: int, end: int): (r: Option<Error>)
    ensures r.None? <==> observer.Some? && target.Some? && start < end
    ensures r == Some(NotSelected) <==> observer.None? || target.None?
    ensures r == Some(InvalidWindow) <==> observer.Some? && target.Some? && start >= end
  {
    if observer.None? || target.None? then Some(NotSelected)
    else if start >= end then Some(InvalidWindow)
    else None
  }

  /** A scan and match reports the azimuth and the instant of one and the
      same event, and that event is the first one nearest to the target. */
  lemma ScanMatchAligned(sunAzimuth: (GeoPoint, int) -> real, location: GeoPoint,
                         instants: seq<int>, target: real, k: nat)
    requires BestMatch(SunAzimuths(sunAzimuth, location, instants), target) == Some(k)
    ensures k < |instants|
    ensures SunAzimuths(sunAzimuth, location, instants)[k] == sunAzimuth(location, instants[k])
    ensures forall j :: 0 <= j < |instants| ==>
              AbsDiff(sunAzimuth(location, instants[k]), target) <= AbsDiff(sunAzimuth(location, instants[j]), target)
    ensures forall j :: 0 <= j < k ==>
              AbsDiff(sunAzimuth(location, instants[j]), target) > AbsDiff(sunAzimuth(location, instants[k]), target)
  {
  }

  class App {
    /** The raw `degrees(atan2(x, y))` of the spherical bearing formula. */
    const bearingDegrees: (GeoPoint, GeoPoint) -> real
    /** The haversine great-circle distance in kilometres. */
    const haversine: (GeoPoint, GeoPoint) -> real
    /** The ephemeris' rise/set search: the instants, in seconds since the
        epoch (UTC), at which the sun rises or sets at a location between a
        start and an end instant. */
    const findRiseSet: (GeoPoint, int, int) -> seq<int>
    /** The ephemeris' apparent azimuth of the sun at a location and instant. */
    const sunAzimuth: (GeoPoint, int) -> real

    /** The "Observer" radio button is checked (otherwise "Object" is). */
    var observerSelected: bool
    /** The observer and object coordinate fields; None while empty. */
    var observerSlot: Option<GeoPoint>
    var objectSlot: Option<GeoPoint>
    /** The "Azimuth" and "Distance" fields, as their two-decimal text reads. */
    var azimuthField: Option<real>
    var distanceField: Option<real>
    /** The "Closest Azimuth" and "Time" result fields; the time is the local
        wall-clock reading in seconds since the epoch. */
    var closestAzimuthField: Option<real>
    var timeField: Option<int>

    /** Once both slots hold a point, the azimuth and distance fields show the
        bearing and distance between them. */
    ghost predicate Valid()
      reads this
    {
      observerSlot.Some? && objectSlot.Some? ==>
        azimuthField == Some(TwoDecimals(CalculateAzimuth(bearingDegrees, observerSlot.value, objectSlot.value))) &&
        distanceField == Some(TwoDecimals(haversine(observerSlot.value, objectSlot.value)))
    }

    constructor (bearingDegrees: (GeoPoint, GeoPoint) -> real, haversine: (GeoPoint, GeoPoint) -> real,
                 findRiseSet: (GeoPoint, int, int) -> seq<int>, sunAzimuth: (GeoPoint, int) -> real)
      ensures Valid()
      ensures this.bearingDegrees == bearingDegrees && this.haversine == haversine
      ensures this.findRiseSet == findRiseSet && this.sunAzimuth == sunAzimuth
      ensures observerSelected
      ensures observerSlot == None && objectSlot == None
      ensures azimuthField == None && distanceField == None
      ensures closestAzimuthField == None && timeField == None
    {
      this.bearingDegrees := bearingDegrees;
      this.haversine := haversine;
      this.findRiseSet := findRiseSet;
      this.sunAzimuth := sunAzimuth;
      observerSelected := true;
      observerSlot, objectSlot := None, None;
      azimuthField, distanceField := None, None;
      closestAzimuthField, timeField := None, None;
    }

    /** Checks one of the two radio buttons; the group keeps exactly one checked. */
    method SelectSlot(observer: bool)
      requires Valid()
      modifies this`observerSelected
      ensures Valid()
      ensures observerSelected == observer
    {
      observerSelected := observer;
    }

    /** A map click: an empty click changes nothing; otherwise the point goes
        into the selected slot only, and once both slots hold a point the
        azimuth and distance fields are recomputed. */
    method UpdateCoordinates(latlon: Option<GeoPoint>)
      requires Valid()
      modifies this`observerSlot, this`objectSlot, this`azimuthField, this`distanceField
      ensures Valid()
      ensures latlon.None? ==> unchanged(this)
      ensures latlon.Some? && observerSelected ==> observerSlot == latlon && objectSlot == old(objectSlot)
      ensures latlon.Some? && !observerSelected ==> objectSlot == latlon && observerSlot == old(observerSlot)
      ensures latlon.Some? && observerSlot.Some? && objectSlot.Some? ==>
                azimuthField == Some(TwoDecimals(CalculateAzimuth(bearingDegrees, observerSlot.value, objectSlot.value))) &&
                distanceField == Some(TwoDecimals(haversine(observerSlot.value, objectSlot.value)))
      ensures !(latlon.Some? && observerSlot.Some? && objectSlot.Some?) ==>
                azimuthField == old(azimuthField) && distanceField == old(distanceField)
    {
      if latlon.Some? {
        if observerSelected {
          observerSlot := latlon;
        } else {
          objectSlot := latlon;
        }
        if observerSlot.Some? {
          var observer := observerSlot.value;
          if objectSlot.Some? {
            var target := objectSlot.value;
            var azimuth := CalculateAzimuth(bearingDegrees, observer, target);
            var distance := haversine(observer, target);
            azimuthField := Some(TwoDecimals(azimuth));
            distanceField := Some(TwoDecimals(distance));
          }
        }
      }
    }

    /** "Find the azimuth and time!": scans the window for sunrises and
        sunsets at the observer, picks the first event whose azimuth is
        linearly nearest to the azimuth field, shows that event's azimuth and
        its instant in local time. A rejected request changes no field, except
        that an offset `datetime.timezone` refuses is only detected after the
        closest azimuth has been shown. */
    method CalculateAzimuthAndTime(start: int, end: int, tmIsdst: int, timezone: int, altzone: int)
      returns (status: Status)
      requires Valid()
      modifies this`closestAzimuthField, this`timeField
      ensures Valid()
      ensures Gate(observerSlot, objectSlot, start, end).Some? ==>
                status == Failed(Gate(observerSlot, objectSlot, start, end).value) &&
                closestAzimuthField == old(closestAzimuthField) && timeField == old(timeField)
      ensures Gate(observerSlot, objectSlot, start, end).None? ==>
                var instants := findRiseSet(observerSlot.value, start, end);
                var azimuths := SunAzimuths(sunAzimuth, observerSlot.value, instants);
                match BestMatch(azimuths, azimuthField.value)
                case None =>
                  status == Failed(NoEvents) &&
                  closestAzimuthField == old(closestAzimuthField) && timeField == old(timeField)
                case Some(k) =>
                  closestAzimuthField == Some(TwoDecimals(azimuths[k])) &&
                  var offset := LocalOffset(tmIsdst, timezone, altzone);
                  if ValidOffset(offset) then
                    status == Done && timeField == Some(ToLocal(instants[k], offset))
                  else
                    status == Failed(OffsetOutOfRange) && timeField == old(timeField)
    {
      if observerSlot.None? || objectSlot.None? {
        return Failed(NotSelected);
      }
      if start >= end {
        return Failed(InvalidWindow);
      }
      var location := observerSlot.value;
      var instants := findRiseSet(location, start, end);

      var azimuths: seq<real> := [];
      var times: seq<int> := [];
      for i := 0 to |instants|
        invariant azimuths == SunAzimuths(sunAzimuth, location, instants[..i])
        invariant times == instants[..i]
      {
        assert instants[..i + 1][..i] == instants[..i];
        azimuths := azimuths + [sunAzimuth(location, instants[i])];
        times := times + [instants[i]];
      }
      assert instants[..|instants|] == instants;

      var best := BestMatch(azimuths, azimuthField.value);
      if best.None? {
        return Failed(NoEvents);
      }
      var k := best.value;
      closestAzimuthField := Some(TwoDecimals(azimuths[k]));

      var offset := LocalOffset(tmIsdst, timezone, altzone);
      if !ValidOffset(offset) {
        return Failed(OffsetOutOfRange);
      }
      timeField := Some(ToLocal(times[k], offset));
      status := Done;
    }
  }
}
