/** The part of the JavaScript `Date` object that the slot generator uses.

    A date is a day, an hour and a minute. Days are counted from the day on
    which the page computes its slots ("today", day 0): there are no months,
    time zones or DST here, and the seconds are left out. The setters behave
    as `Date`'s do: an hour of 24 or more, or a minute of 60 or more, carries
    into the following days and hours instead of failing.
 */
module Clock {

  const MINUTES_PER_HOUR: nat := 60
  const HOURS_PER_DAY: nat := 24
  const MINUTES_PER_DAY: nat := 1440

  datatype Date = Date(day: nat, hours: nat, minutes: nat)

  /** What `getHours` and `getMinutes` can return. */
  predicate Valid(d: Date)
  {
    d.hours < HOURS_PER_DAY && d.minutes < MINUTES_PER_HOUR
  }

  /** The date's time value: whole minutes since midnight of day 0. */
  function TimeValue(d: Date): nat
  {
    d.day * MINUTES_PER_DAY + d.hours * MINUTES_PER_HOUR + d.minutes
  }

  /** `a < b` on two dates: compares their time values. */
  predicate Before(a: Date, b: Date)
  {
    TimeValue(a) < TimeValue(b)
  }

  /** The date with the time value of `day`, `hours`, `minutes`, with
      surplus minutes carried into hours and surplus hours into days. */
  function Normalize(day: nat, hours: nat, minutes: nat): (r: Date)
    ensures Valid(r)
    ensures TimeValue(r) == day * MINUTES_PER_DAY + hours * MINUTES_PER_HOUR + minutes
    ensures minutes < MINUTES_PER_HOUR ==> r.minutes == minutes
    decreases minutes, hours
  {
    if minutes >= MINUTES_PER_HOUR then Normalize(day, hours + 1, minutes - MINUTES_PER_HOUR)
    else if hours >= HOURS_PER_DAY then Normalize(day + 1, hours - HOURS_PER_DAY, minutes)
    else Date(day, hours, minutes)
  }

  /** Two valid dates with the same time value are the same date. */
  lemma SameTimeValue(a: Date, b: Date)
    requires Valid(a) && Valid(b) && TimeValue(a) == TimeValue(b)
    ensures a == b
  {
    var inDayA := a.hours * MINUTES_PER_HOUR + a.minutes;
    var inDayB := b.hours * MINUTES_PER_HOUR + b.minutes;
    assert inDayA < MINUTES_PER_DAY && inDayB < MINUTES_PER_DAY;
    assert a.day == b.day;
    assert a.hours == b.hours;
  }

  /** `date.setDate(date.getDate() + days)`: the same clock time, `days` days later. */
  function AddDays(d: Date, days: nat): (r: Date)
    ensures Valid(d) ==> Valid(r)
    ensures TimeValue(r) == TimeValue(d) + days * MINUTES_PER_DAY
    ensures r.day == d.day + days && r.hours == d.hours && r.minutes == d.minutes
  {
    d.(day := d.day + days)
  }

  /** `date.setHours(hours)`: replaces the hour and keeps the minute; an
      hour of 24 or more moves the date into a later day. */
  function SetHours(d: Date, hours: nat): (r: Date)
    ensures Valid(r)
    ensures TimeValue(r) == d.day * MINUTES_PER_DAY + hours * MINUTES_PER_HOUR + d.minutes
    ensures Valid(d) ==> r.minutes == d.minutes
    ensures Valid(d) && hours < HOURS_PER_DAY ==> r == d.(hours := hours)
  {
    var r := Normalize(d.day, hours, d.minutes);
    if Valid(d) && hours < HOURS_PER_DAY then SameTimeValue(r, d.(hours := hours)); r
    else r
  }

  /** `date.setMinutes(minutes)`: replaces the minute; a minute of 60 or
      more moves the date into a later hour. */
  function SetMinutes(d: Date, minutes: nat): (r: Date)
    ensures Valid(r)
    ensures TimeValue(r) == d.day * MINUTES_PER_DAY + d.hours * MINUTES_PER_HOUR + minutes
    ensures Valid(d) && minutes < MINUTES_PER_HOUR ==> r == d.(minutes := minutes)
  {
    var r := Normalize(d.day, d.hours, minutes);
    if Valid(d) && minutes < MINUTES_PER_HOUR then SameTimeValue(r, d.(minutes := minutes)); r
    else r
  }

  /** `date.setHours(hours, minutes, 0, 0)`: the given clock time on the
      same day. */
  function SetTime(d: Date, hours: nat, minutes: nat): (r: Date)
    ensures Valid(r)
    ensures TimeValue(r) == d.day * MINUTES_PER_DAY + hours * MINUTES_PER_HOUR + minutes
    ensures hours < HOURS_PER_DAY && minutes < MINUTES_PER_HOUR ==>
      r == Date(d.day, hours, minutes)
  {
    var r := Normalize(d.day, hours, minutes);
    if hours < HOURS_PER_DAY && minutes < MINUTES_PER_HOUR then
      SameTimeValue(r, Date(d.day, hours, minutes)); r
    else r
  }
}
