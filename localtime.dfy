/** The local-time conversion of the matched instant. The host's zone state
    (`time.timezone`, `time.altzone`, `time.localtime().tm_isdst`) is passed in. */
module LocalTime {

  /** Seconds in a day: `datetime.timezone` accepts only offsets strictly
      inside one day either side of UTC. */
  const SecondsPerDay: int := 86400

  /** The local offset east of UTC in seconds. `timezone` and `altzone` are
      seconds WEST of UTC for standard and daylight-saving time; the DST zone
      is used whenever `tmIsdst` is not zero. */
  function LocalOffset(tmIsdst: int, timezone: int, altzone: int): (offset: int)
    ensures tmIsdst == 0 ==> offset + timezone == 0
    ensures tmIsdst != 0 ==> offset + altzone == 0
  {
    if tmIsdst == 0 then -timezone else -altzone
  }

  /** Whether `datetime.timezone(timedelta(seconds=offset))` accepts `offset`. */
  predicate ValidOffset(offset: int)
  {
    -SecondsPerDay < offset < SecondsPerDay
  }

  /** The wall-clock reading, in seconds since the epoch, of UTC instant
      `instant` in a zone `offset` seconds east of UTC. */
  function ToLocal(instant: int, offset: int): (local: int)
    requires ValidOffset(offset)
    ensures local - instant == offset
  {
    instant + offset
  }

  /** The UTC instant of a local wall-clock reading. */
  function ToUtc(local: int, offset: int): (instant: int)
    requires ValidOffset(offset)
    ensures local - instant == offset
  {
    local - offset
  }

  /** Converting to local time and back gives the same instant, and the other
      way round. */
  lemma LocalRoundTrip(instant: int, local: int, offset: int)
    requires ValidOffset(offset)
    ensures ToUtc(ToLocal(instant, offset), offset) == instant
    ensures ToLocal(ToUtc(local, offset), offset) == local
  {
  }

  /** Conversion to local time keeps the order of instants, so the earliest
      matching event is also the earliest in local time. */
  lemma ToLocalMonotone(t1: int, t2: int, offset: int)
    requires ValidOffset(offset)
    ensures t1 < t2 <==> ToLocal(t1, offset) < ToLocal(t2, offset)
  {
  }

  /** Example: a zone two hours east of UTC (timezone = -7200) with summer
      time three hours east (altzone = -10800). */
  lemma LocalOffsetExample()
    ensures LocalOffset(0, -7200, -10800) == 7200
    ensures LocalOffset(1, -7200, -10800) == 10800
    ensures LocalOffset(-1, -7200, -10800) == 10800
  {
  }
}
