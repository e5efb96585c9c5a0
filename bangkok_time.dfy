/**
 * Time normalisation to the fixed Bangkok offset (UTC+7, no daylight saving).
 *
 * A timestamp is a wall-clock reading plus an optional UTC offset, as a
 * Python `datetime` is: `offset == None` is a naive value, `Some(o)` an aware
 * one whose wall clock is `o` seconds ahead of UTC.  The wall clock is counted
 * in seconds from 1970-01-01 00:00 on that same clock, so calendar day and
 * time of day are `wall / 86400` and `wall % 86400` (floor division).
 */
module BangkokTime {
  import opened Wrappers

  const SecondsPerDay: int := 86400
  const Utc: int := 0
  /** The fixed Bangkok offset, 7 hours east of UTC. */
  const BangkokOffset: int := 7 * 3600

  datatype DateTime = DateTime(wall: int, offset: Option<int>)

  predicate IsNaive(dt: DateTime) { dt.offset.None? }

  /** The instant an aware timestamp denotes, in seconds since the UTC epoch. */
  function Instant(dt: DateTime): int
    requires !IsNaive(dt)
  {
    dt.wall - dt.offset.value
  }

  /** The instant a stored timestamp denotes when a naive one is read as UTC. */
  function InstantAssumingUtc(dt: DateTime): int
  {
    if IsNaive(dt) then dt.wall else Instant(dt)
  }

  function Day(dt: DateTime): int { dt.wall / SecondsPerDay }

  function TimeOfDay(dt: DateTime): int { dt.wall % SecondsPerDay }

  /** `datetime.replace(tzinfo=...)`: keep the wall clock, attach (or swap) the offset. */
  function Replace(dt: DateTime, offset: int): (r: DateTime)
    ensures r.wall == dt.wall && !IsNaive(r) && Instant(r) == dt.wall - offset
  {
    DateTime(dt.wall, Some(offset))
  }

  /** `datetime.astimezone(tz)` on an aware value: same instant, new offset. */
  function AsTimeZone(dt: DateTime, offset: int): (r: DateTime)
    requires !IsNaive(dt)
    ensures !IsNaive(r) && r.offset.value == offset
    ensures Instant(r) == Instant(dt)
  {
    DateTime(Instant(dt) + offset, Some(offset))
  }

  /** What the `created_at` validator may be handed: nothing, a datetime, or any other value. */
  datatype Value = Null | Stamp(dt: DateTime) | Other(text: string)

  /**
   * The schema validator: a datetime that is naive is taken to be UTC, then
   * every datetime is converted to UTC+7; anything else passes through.
   */
  function ConvertToBangkok(v: Value): (r: Value)
    ensures !v.Stamp? ==> r == v
    ensures v.Stamp? ==> r.Stamp? && r.dt.offset == Some(BangkokOffset)
    ensures v.Stamp? ==> Instant(r.dt) == InstantAssumingUtc(v.dt)
    ensures v.Stamp? && IsNaive(v.dt) ==> r.dt.wall == v.dt.wall + BangkokOffset
  {
    match v
    case Stamp(dt) =>
      var aware := if IsNaive(dt) then Replace(dt, Utc) else dt;
      Stamp(AsTimeZone(aware, BangkokOffset))
    case _ => v
  }

  /**
   * The list endpoints' conversion: the wall clock is stamped UTC whatever
   * offset it carried, then shifted to UTC+7.
   */
  function RouteToBangkok(dt: DateTime): (r: DateTime)
    ensures r.offset == Some(BangkokOffset)
    ensures Instant(r) == dt.wall
  {
    AsTimeZone(Replace(dt, Utc), BangkokOffset)
  }

  /** Converting a value the validator already produced changes nothing. */
  lemma ConvertIdempotent(v: Value)
    ensures ConvertToBangkok(ConvertToBangkok(v)) == ConvertToBangkok(v)
  {
  }

  /** An aware timestamp keeps its instant; only its offset becomes +7h. */
  lemma AwareKeepsInstant(dt: DateTime)
    requires !IsNaive(dt)
    ensures ConvertToBangkok(Stamp(dt)).dt.offset == Some(BangkokOffset)
    ensures Instant(ConvertToBangkok(Stamp(dt)).dt) == Instant(dt)
  {
  }

  /**
   * A naive timestamp is read as UTC and its wall clock moves 7 hours ahead:
   * the same day before 17:00, the next day from 17:00 on.
   */
  lemma NaiveShiftsClock(dt: DateTime)
    requires IsNaive(dt)
    ensures var r := ConvertToBangkok(Stamp(dt)).dt;
      && TimeOfDay(r) == (TimeOfDay(dt) + BangkokOffset) % SecondsPerDay
      && Day(r) == Day(dt) + (if TimeOfDay(dt) < SecondsPerDay - BangkokOffset then 0 else 1)
  {
    var r := ConvertToBangkok(Stamp(dt)).dt;
    var d, t := Day(dt), TimeOfDay(dt);
    assert dt.wall == d * SecondsPerDay + t;
    if t < SecondsPerDay - BangkokOffset {
      assert r.wall == d * SecondsPerDay + (t + BangkokOffset);
    } else {
      assert r.wall == (d + 1) * SecondsPerDay + (t + BangkokOffset - SecondsPerDay);
    }
  }

  /** 2025-06-01 (day 20240 of the epoch) 10:00 naive becomes 17:00 +07:00 on the same date. */
  lemma NaiveMorningExample()
    ensures ConvertToBangkok(Stamp(DateTime(20240 * SecondsPerDay + 10 * 3600, None)))
         == Stamp(DateTime(20240 * SecondsPerDay + 17 * 3600, Some(BangkokOffset)))
  {
  }

  /** 2025-06-01 20:00 naive becomes 03:00 +07:00 on 2025-06-02. */
  lemma NaiveEveningExample()
    ensures ConvertToBangkok(Stamp(DateTime(20240 * SecondsPerDay + 20 * 3600, None)))
         == Stamp(DateTime(20241 * SecondsPerDay + 3 * 3600, Some(BangkokOffset)))
  {
  }

  /**
   * The route conversion and the validator agree on naive values and on
   * values already in UTC; on an aware value with any other offset the route
   * conversion moves the instant by that offset, because it discards the
   * offset before converting.
   */
  lemma RouteAgreesWithValidatorOnUtc(dt: DateTime)
    requires IsNaive(dt) || dt.offset == Some(Utc)
    ensures ConvertToBangkok(Stamp(dt)) == Stamp(RouteToBangkok(dt))
  {
  }

  lemma RouteShiftsOtherOffsets(dt: DateTime)
    requires !IsNaive(dt) && dt.offset != Some(Utc)
    ensures Instant(RouteToBangkok(dt)) == Instant(dt) + dt.offset.value
    ensures ConvertToBangkok(Stamp(dt)) != Stamp(RouteToBangkok(dt))
  {
  }

  /** The response validator leaves a route-converted value as it is. */
  lemma ValidatorAfterRoute(dt: DateTime)
    ensures ConvertToBangkok(Stamp(RouteToBangkok(dt))) == Stamp(RouteToBangkok(dt))
  {
  }
}
