# Appointment slot generator

A model of the doctor appointment page of a booking web front end
(`frontend/src/pages/Appointment.jsx`). The page looks the requested doctor
up in the shared doctor list and, once a doctor is shown, builds the
bookable half-hour slots for today and the six following days: from 10:00
(or, today, from a time rounded from now, see below) up to, but not
including, 21:00.

The project has three modules:

- `Clock` (`clock.dfy`): the part of JavaScript's `Date` the page uses. A
  date is a day counted from today, an hour and a minute. `setHours` and
  `setMinutes` carry overflow into the next hour or day as `Date` does;
  `setDate` moves the day offset; `Before` is the `<` comparison of two dates.
- `Appointment` (`appointment.dfy`): the doctor record, the slot record, the
  lookup, and the functions that say what the week of slots is
  (`FirstSlotTime`, `ClosingTime`, `SlotsBetween`, `DaySlots`, `WeekSlots`).
  The class `AppointmentPage` holds the two pieces of the page's state
  that the lookup and the slot generator set, `docInfo` and `docSlots`, and its methods update them as the page's
  effects do. `GetAvailableSlots` runs the `for` loop over day offsets with
  the same setter calls as the page and is proved to leave
  `WeekSlots(now)` in `docSlots`. The inner `while` loop of each day is the
  method `CollectTimeSlots`, proved to return `SlotsBetween(start, end)`.
- `SlotProperties` (`slot_properties.dfy`): what that week looks like,
  proved for every "now".

"Now" is an input: the hour and minute of the moment the page runs.

The day-0 rounding does not keep every slot after now. When now falls
between 10:00 and 10:59, the first slot is 10:00 or 10:30, which is at or
before now (10:45 gives 10:30); at every other hour all day-0 slots are after
now (`TodayAfterNowIff`, `TodayRoundingExamples`). The start is not the later
of the opening time and a rounded-up time either: the code takes no maximum
and sets the minute to :30 when now's minute is past 30, else to :00. The
first slot is still never before 10:00 (`SlotInBusinessHours`).

## Model

| member | source | states |
|---|---|---|
| `Clock.AddDays` | frontend/src/pages/Appointment.jsx:48-49 | `setDate(getDate() + i)` keeps the clock time and moves the date `i` days on; the time value grows by `i` whole days |
| `Clock.SetHours` | frontend/src/pages/Appointment.jsx:55 | `setHours(h)` keeps the minute; below 24 it replaces only the hour, and an hour of 24 carries into the next day (time value `day*1440 + h*60 + minute`) |
| `Clock.SetMinutes` | frontend/src/pages/Appointment.jsx:66 | `setMinutes(m)` yields a valid date whose time value is `day*1440 + hour*60 + m`; below 60 it replaces only the minute, so `setMinutes(getMinutes() + 30)` is 30 minutes later |
| `Clock.SetTime` | frontend/src/pages/Appointment.jsx:51-52 | `setHours(21, 0, 0, 0)` is 21:00 on the same date |
| `Clock.Normalize` | frontend/src/pages/Appointment.jsx:55-66 | the carrying `Date` applies on every setter: the result is a valid date with the same time value, and a minute below 60 is kept |
| `Appointment.FindDoctor` | frontend/src/pages/Appointment.jsx:20 | `find` yields nothing exactly when no doctor has the id; otherwise a doctor with that id at an index before which no doctor has it (the first match) |
| `Appointment.DoctorAfterLookup` | frontend/src/pages/Appointment.jsx:19-25 | when some doctor has the id, `docInfo` becomes the first such doctor; when none has it (including an empty list), `docInfo` is unchanged |
| `Appointment.AppointmentPage.LoadDoctor` | frontend/src/pages/Appointment.jsx:18-29 | the doctor effect sets `docInfo` as `DoctorAfterLookup` says and leaves `docSlots` alone |
| `Appointment.AppointmentPage.constructor` | frontend/src/pages/Appointment.jsx:12-13 | the page starts with no doctor and no slots |
| `Appointment.AppointmentPage.RefreshSlots` | frontend/src/pages/Appointment.jsx:32-36 | slots are rebuilt only when a doctor is shown; otherwise `docSlots` is unchanged; `docInfo` is never changed |
| `Appointment.AppointmentPage.GetAvailableSlots` | frontend/src/pages/Appointment.jsx:43-70 | whatever `docSlots` held before, it ends as the week for now, one list per day offset 0..6; `docInfo` is unchanged |
| `Appointment.CollectTimeSlots` | frontend/src/pages/Appointment.jsx:62-67 | the `while` loop returns exactly the slots from the start, 30 minutes apart, that begin before the closing time |
| `Appointment.FirstDaysAt` | frontend/src/pages/Appointment.jsx:47-68 | appending one list per iteration gives `n` lists with day `i`'s list at index `i` |
| `Appointment.WeekSlots` | frontend/src/pages/Appointment.jsx:44-69 | the week has exactly 7 day lists, and list `i` is day offset `i`'s |
| `SlotProperties.SlotsBetweenAt` | frontend/src/pages/Appointment.jsx:62-67 | slot `k` of a walk exists exactly when `k` half hours after the start is before the end; it is a valid date that many minutes after the start, labelled with its own clock time |
| `SlotProperties.DayBounds` | frontend/src/pages/Appointment.jsx:51-60 | day 0 starts at hour `h + 1` when `h > 10` (else 10) and minute 30 when `m > 30` (else 0); days 1-6 start at 10:00; every day closes at 21:00 of its own date |
| `SlotProperties.SlotInBusinessHours` | frontend/src/pages/Appointment.jsx:52-66 | every slot of every day lies on that day's date, from 10:00 and strictly before 21:00; its label is its own hour and minute, the minute is 0 or 30, and the next slot is exactly 30 minutes later |
| `SlotProperties.DayAscending` | frontend/src/pages/Appointment.jsx:63-66 | inside each day the slots are strictly ascending |
| `SlotProperties.FullDay` | frontend/src/pages/Appointment.jsx:57-67 | each of days 1-6 (and day 0 when now's hour is at most 10 and its minute at most 30, so the rounding lands on 10:00) has exactly the 22 slots 10:00, 10:30, ..., 20:30 |
| `SlotProperties.TodayFirstSlot` | frontend/src/pages/Appointment.jsx:52-63 | day 0 is empty exactly when now's hour is 20 or later; otherwise its first slot is at the rounded hour and minute |
| `SlotProperties.LateNightRollsOver` | frontend/src/pages/Appointment.jsx:55-56 | at 23:xx the start rolls past midnight into day 1 and day 0 stays empty |
| `SlotProperties.TodayLeadTime` | frontend/src/pages/Appointment.jsx:55-56 | when now's hour is past 10, every day-0 slot starts at least 30 minutes after now |
| `SlotProperties.TodayAfterNowIff` | frontend/src/pages/Appointment.jsx:54-56 | all day-0 slots start strictly after now if and only if now's hour is not 10 |
| `SlotProperties.TodayRoundingExamples` | frontend/src/pages/Appointment.jsx:55-56 | 10:45 gives a first slot of 10:30, not after now; 9:45 gives 10:30, after now |

## Left out

- Rendering: the JSX markup, styles, the day and time pickers with their click handlers (`slotIndex`, `slotTime`), the booking button (it has no handler) and `RelatedDoctors`. They are presentation.
- React plumbing: `useEffect` scheduling, `useState` batching, `useParams`, `AppContext` and `window.scrollTo`. The doctor list, the id and now become parameters. The queued `setDocSlots` updates are applied in order, as React applies them.
- `console.error` and `console.warn` in the doctor effect: output only; the model keeps the state they leave untouched.
- `toLocaleTimeString`: the label is locale-dependent library formatting, so a slot's label is its (hour, minute) pair.
- `Date` calendar behaviour: months and month rollover in `setDate`, time zones and DST. Days are plain offsets from today, so the same-date test of line 54 holds only on day offset 0, as it does in a 7-day window.
- Seconds and milliseconds that `currentDate` keeps from `new Date()`: every slot starts on a whole half hour and the closing time is 21:00:00.000, so carried-over seconds never change whether a slot is before closing.
- Idempotence of slot generation: `WeekSlots` is a function of now, so two runs with the same now give the same week; no separate lemma states it.
