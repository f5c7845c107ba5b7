/** The appointment page of the booking front end: the doctor it shows, and
    the bookable half-hour slots it offers for today and the six days after.

    Two pieces of the page's state are set by the lookup and the slot
    generator: `docInfo` (the doctor being shown, or none yet) and
    `docSlots` (one list of slots per day). The functions below
    say what those states must become; the class `AppointmentPage` updates
    them step by step as the page does.
 */
module Appointment {
  import opened Clock

  /** Business hours and the step between slots. */
  const OPEN_HOUR: nat := 10
  const CLOSE_HOUR: nat := 21
  const STEP_MINUTES: nat := 30
  /** Slots are offered for today and the six days that follow. */
  const DAYS_SHOWN: nat := 7

  datatype Option<T> = None | Some(value: T)

  /** A doctor as the shared doctor list holds it; `id` is the `_id` key. */
  datatype Doctor = Doctor(
    id: string,
    name: string,
    image: string,
    speciality: string,
    degree: string,
    experience: string,
    about: string,
    fees: nat)

  /** The clock time a slot is shown with. It stands for the locale-formatted
      label: only the hour and the minute go into it. */
  datatype Label = Label(hour: nat, minute: nat)

  /** One bookable slot: the instant it starts and its label. */
  datatype TimeSlot = TimeSlot(datetime: Date, time: Label)

  // ---------------------------------------------------------------------
  // Doctor lookup

  /** `doctors.find(doc => doc._id === docId)`: the first doctor whose id is
      `docId`, or none when no doctor has it. */
  function FindDoctor(doctors: seq<Doctor>, docId: string): (r: Option<Doctor>)
    ensures r.None? <==> forall k :: 0 <= k < |doctors| ==> doctors[k].id != docId
    ensures r.Some? ==>
      exists k :: 0 <= k < |doctors| && doctors[k] == r.value && r.value.id == docId &&
        forall j :: 0 <= j < k ==> doctors[j].id != docId
  {
    if doctors == [] then None
    else if doctors[0].id == docId then Some(doctors[0])
    else
      var rest := FindDoctor(doctors[1..], docId);
      assert forall k :: 1 <= k < |doctors| ==> doctors[k] == doctors[1..][k - 1];
      rest
  }

  /** What `docInfo` becomes after the doctor effect runs: the doctor found,
      when the list is loaded and has one with that id; otherwise unchanged. */
  function DoctorAfterLookup(docInfo: Option<Doctor>, doctors: seq<Doctor>, docId: string): (r: Option<Doctor>)
    ensures (forall k :: 0 <= k < |doctors| ==> doctors[k].id != docId) ==> r == docInfo
    ensures (exists k :: 0 <= k < |doctors| && doctors[k].id == docId) ==>
      r.Some? && r.value.id == docId &&
      exists k :: 0 <= k < |doctors| && doctors[k] == r.value &&
        forall j :: 0 <= j < k ==> doctors[j].id != docId
  {
    if |doctors| > 0 && FindDoctor(doctors, docId).Some? then FindDoctor(doctors, docId) else docInfo
  }

  // ---------------------------------------------------------------------
  // Slot generation, as values

  /** The date the page takes as "now", from its hour and minute. */
  function Today(hour: nat, minute: nat): (d: Date)
    requires hour < HOURS_PER_DAY && minute < MINUTES_PER_HOUR
  {
    Date(0, hour, minute)
  }

  /** The slot that starts at `d`, labelled with its clock time. */
  function SlotAt(d: Date): TimeSlot
  {
    TimeSlot(d, Label(d.hours, d.minutes))
  }

  /** Where the walk over day `i` starts. Today: the next hour when now is
      past the opening hour (else the opening hour), at :30 when now is past
      :30 (else at :00); hour 24 is midnight of the next day. Every later
      day: the opening time. */
  function FirstSlotTime(today: Date, i: nat): (d: Date)
    requires Valid(today)
    ensures Valid(d)
  {
    if i == 0 then
      var hour := if today.hours > OPEN_HOUR then today.hours + 1 else OPEN_HOUR;
      var minute := if today.minutes > 30 then 30 else 0;
      if hour < HOURS_PER_DAY then Date(today.day, hour, minute)
      else Date(today.day + 1, hour - HOURS_PER_DAY, minute)
    else
      Date(today.day + i, OPEN_HOUR, 0)
  }

  /** Closing time on day `i`: 21:00 on the date `i` days after today. */
  function ClosingTime(today: Date, i: nat): Date
  {
    Date(today.day + i, CLOSE_HOUR, 0)
  }

  /** One step of the walk: `setMinutes(getMinutes() + 30)`. */
  function NextSlotTime(d: Date): Date
  {
    SetMinutes(d, d.minutes + STEP_MINUTES)
  }

  /** The slots at `start`, 30 minutes later, and so on, that begin before `end`. */
  function SlotsBetween(start: Date, end: Date): seq<TimeSlot>
    decreases TimeValue(end) - TimeValue(start)
  {
    if Before(start, end) then [SlotAt(start)] + SlotsBetween(NextSlotTime(start), end) else []
  }

  /** The slots listed for day `i`. */
  function DaySlots(today: Date, i: nat): seq<TimeSlot>
    requires Valid(today)
  {
    SlotsBetween(FirstSlotTime(today, i), ClosingTime(today, i))
  }

  /** The lists of days 0 .. n - 1, in order, as the page appends them. */
  function FirstDays(today: Date, n: nat): seq<seq<TimeSlot>>
    requires Valid(today)
  {
    if n == 0 then [] else FirstDays(today, n - 1) + [DaySlots(today, n - 1)]
  }

  /** Appending day by day puts day `i`'s list at index `i`. */
  lemma {:induction false} FirstDaysAt(today: Date, n: nat)
    requires Valid(today)
    ensures |FirstDays(today, n)| == n
    ensures forall i :: 0 <= i < n ==> FirstDays(today, n)[i] == DaySlots(today, i)
  {
    if n > 0 {
      FirstDaysAt(today, n - 1);
    }
  }

  /** The whole week: one list per day offset 0 .. 6, in order. */
  function WeekSlots(today: Date): (week: seq<seq<TimeSlot>>)
    requires Valid(today)
    ensures |week| == DAYS_SHOWN
    ensures forall i :: 0 <= i < DAYS_SHOWN ==> week[i] == DaySlots(today, i)
  {
    FirstDaysAt(today, DAYS_SHOWN);
    FirstDays(today, DAYS_SHOWN)
  }

  /** The inner walk of the slot generator, for one day: starting at
      `start`, push a slot for the current date and move it 30 minutes on,
      as long as it is before `endTime`. */
  method CollectTimeSlots(start: Date, endTime: Date) returns (timeSlots: seq<TimeSlot>)
    ensures timeSlots == SlotsBetween(start, endTime)
  {
    var currentDate := start;
    timeSlots := [];
    while Before(currentDate, endTime)
      invariant timeSlots + SlotsBetween(currentDate, endTime) == SlotsBetween(start, endTime)
      decreases TimeValue(endTime) as int - TimeValue(currentDate)
    {
      timeSlots := timeSlots + [SlotAt(currentDate)];
      currentDate := SetMinutes(currentDate, currentDate.minutes + STEP_MINUTES);
    }
  }

  // ---------------------------------------------------------------------
  // The page and its state

  class AppointmentPage {
    var docInfo: Option<Doctor>
    var docSlots: seq<seq<TimeSlot>>

    /** A fresh page shows no doctor and no slots. */
    constructor ()
      ensures docInfo == None && docSlots == []
    {
      docInfo := None;
      docSlots := [];
    }

    /** The effect that runs when the doctor list or the id changes: with a
        loaded list, a doctor with that id becomes `docInfo`; when none has
        it, or the list is still empty, `docInfo` stays as it was (the page
        only logs a message then). */
    method LoadDoctor(doctors: seq<Doctor>, docId: string)
      modifies this
      ensures docInfo == DoctorAfterLookup(old(docInfo), doctors, docId)
      ensures docSlots == old(docSlots)
    {
      if |doctors| > 0 {
        var found := FindDoctor(doctors, docId);
        if found.Some? {
          docInfo := found;
        }
      }
    }

    /** The effect that runs when `docInfo` changes: slots are generated
        only once a doctor is shown. */
    method RefreshSlots(nowHour: nat, nowMinute: nat)
      requires nowHour < HOURS_PER_DAY && nowMinute < MINUTES_PER_HOUR
      modifies this
      ensures docInfo == old(docInfo)
      ensures docSlots == if docInfo.Some? then WeekSlots(Today(nowHour, nowMinute)) else old(docSlots)
    {
      if docInfo.Some? {
        GetAvailableSlots(nowHour, nowMinute);
      }
    }

    /** Rebuilds `docSlots` for the week that starts at "now" (given by its
        hour and minute): the list is emptied, then one day's slots are
        appended per day offset 0..6. */
    method GetAvailableSlots(nowHour: nat, nowMinute: nat)
      requires nowHour < HOURS_PER_DAY && nowMinute < MINUTES_PER_HOUR
      modifies this
      ensures docInfo == old(docInfo)
      ensures docSlots == WeekSlots(Today(nowHour, nowMinute))
    {
      docSlots := [];
      var today := Today(nowHour, nowMinute);

      for i := 0 to DAYS_SHOWN
        invariant docInfo == old(docInfo)
        invariant docSlots == FirstDays(today, i)
      {
        var currentDate := AddDays(today, i);
        var endTime := SetTime(currentDate, CLOSE_HOUR, 0);

        if today.day == currentDate.day {
          currentDate := SetHours(currentDate,
            if currentDate.hours > OPEN_HOUR then currentDate.hours + 1 else OPEN_HOUR);
          currentDate := SetMinutes(currentDate, if currentDate.minutes > 30 then 30 else 0);
        } else {
          currentDate := SetHours(currentDate, OPEN_HOUR);
          currentDate := SetMinutes(currentDate, 0);
        }

        if i == 0 && today.hours + 1 == HOURS_PER_DAY {
          // 23:xx: the hour becomes 24, which is midnight of the next day.
          SameTimeValue(currentDate, FirstSlotTime(today, i));
        }
        assert currentDate == FirstSlotTime(today, i) && endTime == ClosingTime(today, i);
        var timeSlots := CollectTimeSlots(currentDate, endTime);
        docSlots := docSlots + [timeSlots];
      }
    }
  }
}
