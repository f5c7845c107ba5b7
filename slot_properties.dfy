/** What the slot generator promises about the week it builds, proved about
    the functions in `Appointment` that `GetAvailableSlots` is verified to
    compute. "now" is given by its hour `h` and minute `m`. */
module SlotProperties {
  import opened Clock
  import opened Appointment

  /** The walk from `start` to `end`: slot `k` exists exactly when `k` half
      hours after `start` is still before `end`, and it starts there. */
  lemma {:induction false} SlotsBetweenAt(start: Date, end: Date, k: nat)
    requires Valid(start)
    ensures k < |SlotsBetween(start, end)| <==> TimeValue(start) + STEP_MINUTES * k < TimeValue(end)
    ensures k < |SlotsBetween(start, end)| ==>
      var s := SlotsBetween(start, end)[k];
      Valid(s.datetime) && TimeValue(s.datetime) == TimeValue(start) + STEP_MINUTES * k &&
      s == SlotAt(s.datetime)
    decreases k
  {
    if Before(start, end) && k > 0 {
      SlotsBetweenAt(NextSlotTime(start), end, k - 1);
    }
  }

  /** The time value of each day's first start and of its closing time. On
      day 0 an hour of 24 lands on midnight of day 1, which is the same
      time value. */
  lemma DayBounds(h: nat, m: nat, i: nat)
    requires h < HOURS_PER_DAY && m < MINUTES_PER_HOUR
    ensures TimeValue(FirstSlotTime(Today(h, m), i)) ==
      if i == 0 then (if h > OPEN_HOUR then h + 1 else OPEN_HOUR) * MINUTES_PER_HOUR + (if m > 30 then 30 else 0)
      else i * MINUTES_PER_DAY + OPEN_HOUR * MINUTES_PER_HOUR
    ensures TimeValue(ClosingTime(Today(h, m), i)) == i * MINUTES_PER_DAY + CLOSE_HOUR * MINUTES_PER_HOUR
  {
  }

  /** Inside one day's list, for any day of the week: each slot lies on that
      day's date within business hours (from 10:00, strictly before 21:00),
      its label is the slot's own clock time, on the hour or on the half
      hour, and the next slot starts exactly 30 minutes later. */
  lemma SlotInBusinessHours(h: nat, m: nat, i: nat, k: nat)
    requires h < HOURS_PER_DAY && m < MINUTES_PER_HOUR
    requires k < |DaySlots(Today(h, m), i)|
    ensures var s := DaySlots(Today(h, m), i)[k];
      Valid(s.datetime) && s.datetime.day == i &&
      OPEN_HOUR <= s.datetime.hours < CLOSE_HOUR &&
      s.time == Label(s.datetime.hours, s.datetime.minutes) &&
      (s.time.minute == 0 || s.time.minute == 30)
    ensures k + 1 < |DaySlots(Today(h, m), i)| ==>
      TimeValue(DaySlots(Today(h, m), i)[k + 1].datetime) ==
        TimeValue(DaySlots(Today(h, m), i)[k].datetime) + STEP_MINUTES
  {
    var today := Today(h, m);
    var first := FirstSlotTime(today, i);
    DayBounds(h, m, i);
    SlotsBetweenAt(first, ClosingTime(today, i), k);
    SlotsBetweenAt(first, ClosingTime(today, i), k + 1);
    var d := DaySlots(today, i)[k].datetime;
    // The first start is a whole number of half hours; so is every slot.
    var q0: nat := if i == 0 then
        2 * (if h > OPEN_HOUR then h + 1 else OPEN_HOUR) + (if m > 30 then 1 else 0)
      else 48 * i + 2 * OPEN_HOUR;
    assert TimeValue(d) == STEP_MINUTES * (q0 + k);
    HalfHourMinutes(d, q0 + k);
    WithinBusinessHours(d, i);
  }

  /** A valid date whose time value is a whole number of half hours is on
      the hour or on the half hour. */
  lemma HalfHourMinutes(d: Date, q: nat)
    requires Valid(d) && TimeValue(d) == STEP_MINUTES * q
    ensures d.minutes == 0 || d.minutes == 30
  {
    assert d.minutes == STEP_MINUTES * (q - 48 * d.day - 2 * d.hours);
  }

  /** A valid date from 10:00 to before 21:00 of day `i` is on day `i`, in
      the hours 10 to 20. */
  lemma WithinBusinessHours(d: Date, i: nat)
    requires Valid(d)
    requires i * MINUTES_PER_DAY + OPEN_HOUR * MINUTES_PER_HOUR <= TimeValue(d)
    requires TimeValue(d) < i * MINUTES_PER_DAY + CLOSE_HOUR * MINUTES_PER_HOUR
    ensures d.day == i && OPEN_HOUR <= d.hours < CLOSE_HOUR
  {
    var inDay := d.hours * MINUTES_PER_HOUR + d.minutes;
    assert inDay < MINUTES_PER_DAY;
    assert d.day == i;
  }

  /** Inside one day's list the slots are strictly ascending. */
  lemma DayAscending(h: nat, m: nat, i: nat)
    requires h < HOURS_PER_DAY && m < MINUTES_PER_HOUR
    ensures forall j, k :: 0 <= j < k < |DaySlots(Today(h, m), i)| ==>
      Before(DaySlots(Today(h, m), i)[j].datetime, DaySlots(Today(h, m), i)[k].datetime)
  {
    var today := Today(h, m);
    forall j, k | 0 <= j < k < |DaySlots(today, i)|
      ensures Before(DaySlots(today, i)[j].datetime, DaySlots(today, i)[k].datetime)
    {
      SlotsBetweenAt(FirstSlotTime(today, i), ClosingTime(today, i), j);
      SlotsBetweenAt(FirstSlotTime(today, i), ClosingTime(today, i), k);
    }
  }

  /** A day that opens at 10:00 gets the full 22 slots 10:00, 10:30, ...,
      20:30. That is every day after today, and today as well when now's
      hour is at most 10 and its minute at most 30 (the rounding then lands
      on 10:00). */
  lemma FullDay(h: nat, m: nat, i: nat)
    requires h < HOURS_PER_DAY && m < MINUTES_PER_HOUR
    requires i > 0 || (h <= OPEN_HOUR && m <= 30)
    ensures |DaySlots(Today(h, m), i)| == 22
    ensures forall k :: 0 <= k < 22 ==>
      DaySlots(Today(h, m), i)[k] ==
        TimeSlot(Date(i, OPEN_HOUR + k / 2, 30 * (k % 2)), Label(OPEN_HOUR + k / 2, 30 * (k % 2)))
  {
    var today := Today(h, m);
    var first := FirstSlotTime(today, i);
    DayBounds(h, m, i);
    SlotsBetweenAt(first, ClosingTime(today, i), 21);
    SlotsBetweenAt(first, ClosingTime(today, i), 22);
    forall k | 0 <= k < 22
      ensures DaySlots(today, i)[k] ==
        TimeSlot(Date(i, OPEN_HOUR + k / 2, 30 * (k % 2)), Label(OPEN_HOUR + k / 2, 30 * (k % 2)))
    {
      SlotsBetweenAt(first, ClosingTime(today, i), k);
      var expected := Date(i, OPEN_HOUR + k / 2, 30 * (k % 2));
      assert TimeValue(expected) == TimeValue(first) + STEP_MINUTES * k;
      SameTimeValue(DaySlots(today, i)[k].datetime, expected);
    }
  }

  /** Today's list is empty exactly when now is 20:00 or later; otherwise
      it starts at the rounded time: the next hour when past 10 o'clock
      (else 10), on the half hour when now is past :30 (else on the hour). */
  lemma TodayFirstSlot(h: nat, m: nat)
    requires h < HOURS_PER_DAY && m < MINUTES_PER_HOUR
    ensures DaySlots(Today(h, m), 0) == [] <==> h >= 20
    ensures h < 20 ==>
      var hour := if h > OPEN_HOUR then h + 1 else OPEN_HOUR;
      var minute := if m > 30 then 30 else 0;
      DaySlots(Today(h, m), 0)[0] == TimeSlot(Date(0, hour, minute), Label(hour, minute))
  {
    var today := Today(h, m);
    DayBounds(h, m, 0);
    SlotsBetweenAt(FirstSlotTime(today, 0), ClosingTime(today, 0), 0);
  }

  /** At 23:xx the rounded start rolls past midnight into day 1, and today's
      list is empty. */
  lemma LateNightRollsOver(m: nat)
    requires m < MINUTES_PER_HOUR
    ensures FirstSlotTime(Today(23, m), 0) == Date(1, 0, if m > 30 then 30 else 0)
    ensures DaySlots(Today(23, m), 0) == []
  {
    TodayFirstSlot(23, m);
  }

  /** Past 10 o'clock, every slot offered today starts at least 30 minutes
      after now. */
  lemma TodayLeadTime(h: nat, m: nat)
    requires h < HOURS_PER_DAY && m < MINUTES_PER_HOUR
    requires h > OPEN_HOUR
    ensures forall k :: 0 <= k < |DaySlots(Today(h, m), 0)| ==>
      TimeValue(DaySlots(Today(h, m), 0)[k].datetime) >= TimeValue(Today(h, m)) + 30
  {
    var today := Today(h, m);
    forall k | 0 <= k < |DaySlots(today, 0)|
      ensures TimeValue(DaySlots(today, 0)[k].datetime) >= TimeValue(today) + 30
    {
      DayBounds(h, m, 0);
      SlotsBetweenAt(FirstSlotTime(today, 0), ClosingTime(today, 0), k);
    }
  }

  /** Today's slots all start strictly after now exactly when now is not in
      the 10 o'clock hour. Between 10:00 and 10:59 the rounding gives 10:00
      or 10:30, which is at or before now. */
  lemma TodayAfterNowIff(h: nat, m: nat)
    requires h < HOURS_PER_DAY && m < MINUTES_PER_HOUR
    ensures (forall k :: 0 <= k < |DaySlots(Today(h, m), 0)| ==>
      Before(Today(h, m), DaySlots(Today(h, m), 0)[k].datetime)) <==> h != OPEN_HOUR
  {
    var today := Today(h, m);
    DayBounds(h, m, 0);
    if h == OPEN_HOUR {
      SlotsBetweenAt(FirstSlotTime(today, 0), ClosingTime(today, 0), 0);
      assert !Before(today, DaySlots(today, 0)[0].datetime);
    } else if h < OPEN_HOUR {
      forall k | 0 <= k < |DaySlots(today, 0)|
        ensures Before(today, DaySlots(today, 0)[k].datetime)
      {
        SlotsBetweenAt(FirstSlotTime(today, 0), ClosingTime(today, 0), k);
      }
    } else {
      TodayLeadTime(h, m);
    }
  }

  /** At 10:45 the first slot offered today is 10:30, which has already
      begun; at 9:45 it is 10:30, after now. */
  lemma TodayRoundingExamples()
    ensures DaySlots(Today(10, 45), 0)[0].time == Label(10, 30)
    ensures !Before(Today(10, 45), DaySlots(Today(10, 45), 0)[0].datetime)
    ensures DaySlots(Today(9, 45), 0)[0].time == Label(10, 30)
    ensures Before(Today(9, 45), DaySlots(Today(9, 45), 0)[0].datetime)
  {
    TodayFirstSlot(10, 45);
    TodayFirstSlot(9, 45);
  }
}
