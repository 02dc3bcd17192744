# Weekly availability slots

A Dafny model of the slot-computation engine of a small availability service.
Given a period start and the events already fetched from the `events` table,
`getAvailabilities` returns seven day records, one per day from the period
start, each listing the free half-hour slot labels (`"HH:MM"`) of that day.
A slot is free when an opening event takes it and no appointment event does.
Weekly-recurring events (openings and appointments alike) are templates: before
the days are filled, each one is moved onto the window day that has the
template's weekday, keeping the template's start and end times of day to the
second.

The model follows the two classes of the source:

- `Day.AvailabilityDay` (`availability_day.dfy`) is a class with the constant
  `momentObj` and the two mutable lists `opening` and `appointment`.
  `DestructureEventToSlots` walks the 48 ticks of the day in a `while` loop and
  appends each covered tick to the list named by the event's kind, unless that
  list already holds it. `ToDoctolibTestFormat` filters `opening` by "not in
  `appointment`".
- `DayList.AvailabilitiesDayList` (`availabilities_day_list.dfy`) is a class
  holding the seven days. Its constructor builds them in a loop, projects the
  weekly templates and offers every event to every day.
- `Availabilities.GetAvailabilities` (`get_availabilities.dfy`) is the entry
  point: the invalid-date guard, then the hand-off to the day list.
- `TimeGrid` (`timegrid.dfy`) stands in for the calendar arithmetic the source
  takes from moment. `Events` (`events.dfy`) holds the event record.

Each imperative member is proved against a pure specification:

- `Absorb` is one event absorbed by one list.
- `AbsorbEvents` / `DayTicks` is a day offered a list of events.
- `ProjectRecurring` / `ProjectAll` is the weekly projection.
- `Week` is the whole result.

The lemmas state the properties of those specifications.

Time is modelled as whole seconds of local time. Day `d` covers seconds
`d*86400 .. d*86400 + 86399`, so `endOf('day')` is the last second of the day.
The weekday is `(d + 4) % 7`, with Sunday as 0, because 1970-01-01 was a
Thursday. Tick `k` of a day (0..47) is at `startOfDay + k*1800`. The day lists
store tick indices, and the output renders them as zero-padded `"HH:MM"`.
`RenderInjective` proves that two ticks share a label only when they are the
same tick. So deduplicating and filtering indices, as the model does, gives
the same lists as the source's deduplicating and filtering of label strings
(`LabelsOfFreeSlots`).

`src/getAvailabilities.js:32-160` repeats both classes word for word. The
model defines them once, and the rows below cite the standalone files.

Behaviours of the code worth knowing:

- **Order of labels.** The lists keep the order in which labels are first
  taken (arrival order), not time-of-day order (`Day.ArrivalOrderIsKept`).
- **Durations.** A projected template keeps its start's and its end's times of
  day on one date, so its duration is not preserved when it runs past midnight
  (`DayList.OvernightTemplateTakesNoTicks`).
- **Slot labels.** The code's `'HH:mm'` renders `'09:30'`, while the test at
  `src/getAvailabilities.test.js:36-41` expects `'9:30'`; `Availabilities.SimpleCase`
  follows the code.
- **Future weekly templates.** The query's `.orWhere({weekly_recurring: true})`
  (`src/getAvailabilities.js:22-23`) returns every weekly row whatever its date,
  and `src/AvailabilitiesDayList.js:57-70` projects it into the window. A
  template dated 2018-12-03, 06:00-22:00, therefore fills a window day that
  starts at local midnight of Monday 2018-01-29 with 06:00-21:30
  (`Availabilities.FutureTemplateFillsMonday`). When the tests run at UTC or
  east of it, `new Date('2018-01-29')` is that midnight or a later hour of the
  same Monday, and the code as written contradicts the "Future cases" test
  (`src/getAvailabilities.test.js:95-111`), which expects day 0 to be empty.
  West of UTC the window starts on Sunday 2018-01-28, the template lands on
  day 1, and day 0 is empty as the test expects.
- **Milliseconds of the period start.** `set({hour, minute, second})`
  (`src/AvailabilitiesDayList.js:60-70`) leaves milliseconds alone, so a
  projected weekly event carries the milliseconds of the period start, while
  the ticks (`src/AvailabilityDay.js:20`) carry none. When the period start has
  milliseconds (any Date taken from the clock), the '[)' test at
  `src/AvailabilityDay.js:24` skips the projected event's first tick and takes
  the tick at its end time: a weekly 09:30-12:30 opening yields 10:00-12:30
  instead of 09:30-12:00. The model, in whole seconds, shows neither shift.

## Model

| member | source | states |
|---|---|---|
| TimeGrid.StartOfDay | src/AvailabilitiesDayList.js:85 | the start of the day is a midnight at or before t and less than a day before it, on t's day |
| TimeGrid.EndOfDay | src/AvailabilitiesDayList.js:84 | the end of the day is the last second (second 86399) of t's own day, at or after t |
| TimeGrid.Weekday | src/AvailabilitiesDayList.js:58 | `day()` is a weekday number 0..6 |
| TimeGrid.AtTimeOf | src/AvailabilitiesDayList.js:60-70 | `set({hour, minute, second})` keeps the date of the day and takes the time of day of the other moment |
| TimeGrid.AddDaysShift | src/AvailabilitiesDayList.js:12 | `add(i, 'day')` moves the date by i days, keeps the time of day and moves the weekday by i modulo 7 |
| TimeGrid.Render | src/AvailabilityDay.js:25 | `format('HH:mm')` of tick k is five characters, with the tick's hour in two digits, a colon, and the minute in two digits |
| TimeGrid.RenderInjective | src/AvailabilityDay.js:25-28 | two ticks have the same label exactly when they are the same tick, so string deduplication is tick deduplication |
| TimeGrid.RenderHalfHours | src/AvailabilityDay.js:25 | tick k renders as hour k/2 followed by ":00" for even k and ":30" for odd k |
| Day.FreeSlotsSpec | src/AvailabilityDay.js:40 | the filter keeps exactly the opening labels that are not appointment labels, as a subsequence of `opening` (its order kept), and a kept label keeps every one of its occurrences |
| Day.AvailabilityDay.constructor | src/AvailabilityDay.js:7-13 | a new day has the given moment and empty opening and appointment lists |
| Day.AvailabilityDay.DestructureEventToSlots | src/AvailabilityDay.js:19-31 | the list of the event's kind becomes `Absorb` of its old value; the other list is unchanged |
| Day.AvailabilityDay.ToDoctolibTestFormat | src/AvailabilityDay.js:37-43 | the record carries the day's moment; its slots are the rendered opening labels filtered by the rendered appointment labels; a tick's label is a slot iff the tick is in `opening` and not in `appointment` |
| Day.NewTicksExactly | src/AvailabilityDay.js:23-29 | one pass appends exactly the ticks t with starts_at <= t < ends_at that the list lacked, in ascending time order; if there are none it appends nothing |
| Day.AbsorbShape | src/AvailabilityDay.js:24-29 | after absorbing, the list holds exactly its old ticks plus the covered ticks; old entries keep their positions; the appended ticks ascend; a list without duplicates stays without duplicates |
| Day.AbsorbIdempotent | src/AvailabilityDay.js:26-28 | absorbing the same event twice gives the same list as absorbing it once |
| Day.AbsorbEmptyInterval | src/AvailabilityDay.js:24 | an event with starts_at >= ends_at adds no tick |
| Day.ArrivalOrderIsKept | src/AvailabilityDay.js:20-30 | an opening at 10:00 absorbed before one at 09:00 leaves the list [10:00, 09:00], which is not in time order |
| Day.CoversIsRun | src/AvailabilityDay.js:24 | the ticks an event covers on a day are one contiguous run, from the first tick at or after starts_at to the last tick before ends_at |
| Day.AbsorbRun | src/AvailabilityDay.js:19-31 | absorbing an event into a list that holds none of its ticks appends that run in ascending order |
| Day.FreeSlotsOfSpans | src/AvailabilityDay.js:40 | filtering a run of opening ticks by a run of appointment ticks leaves the part before the appointment and the part after it |
| Day.FreeLabelsExactly | src/AvailabilityDay.js:40 | a tick's label is among the free labels iff the tick is an opening tick and not an appointment tick |
| Day.LabelsOfFreeSlots | src/AvailabilityDay.js:40 | filtering the ticks and then rendering them gives the same list as the source's filter on the rendered labels |
| DayList.MatchOffset | src/AvailabilitiesDayList.js:57-58 | for every weekday, some window day 0..6 has that weekday |
| DayList.MatchOffsetUnique | src/AvailabilitiesDayList.js:57-58 | only one window day has a given weekday, so only one iteration of the forEach rewrites the event |
| DayList.ProjectRecurring | src/AvailabilitiesDayList.js:53-76 | the projected event keeps its kind and flag; its start lies in the window, on the original start's weekday and at its time of day; its end lies on the same date at the original end's time of day |
| DayList.ProjectionLandsOnMatchingDay | src/AvailabilitiesDayList.js:57-73 | the projected start falls on whichever window day has the template's start weekday |
| DayList.ProjectEventIdempotent | src/AvailabilitiesDayList.js:40-76 | projecting an already projected event again yields the same event |
| DayList.OvernightTemplateTakesNoTicks | src/AvailabilitiesDayList.js:60-70 | a Monday 22:00 to Tuesday 02:00 template becomes Monday 22:00 to Monday 02:00 and takes no tick on any day |
| DayList.IsAnIncludedEvent | src/AvailabilitiesDayList.js:83-87 | starts_at <= endOf('day') and ends_at >= startOf('day'), to the second, holds iff the event starts on or before the day's date and ends on or after it |
| DayList.IncludedIffOverlaps | src/AvailabilitiesDayList.js:83-87 | for an event with starts_at <= ends_at, isAnIncludedEvent holds iff some second of the day lies in [starts_at, ends_at] |
| DayList.ExcludedAddsNothing | src/AvailabilitiesDayList.js:30-31 | an event that fails isAnIncludedEvent would add no tick to the day anyway |
| DayList.AbsorbEventsExactly | src/AvailabilitiesDayList.js:28-34 | after a day is offered a list of events, each list holds its old ticks plus exactly the ticks covered by some event of its kind; old entries keep their positions; no duplicates appear |
| DayList.DayTicksIgnoreArrivalOrder | src/AvailabilitiesDayList.js:28-34 | the set of ticks a day collects depends only on which events arrive, not on their order or repetition |
| DayList.AvailabilitiesDayList.constructor | src/AvailabilitiesDayList.js:8-21 | builds seven distinct fresh days at periodStart + 0..6 days, in ascending order; each day ends up holding the ticks the projected events give it |
| DayList.AvailabilitiesDayList.SetTimeSlotsInAvailabilityDay | src/AvailabilitiesDayList.js:28-34 | the day's lists become their old values with every event offered in order, each included event absorbed |
| DayList.AvailabilitiesDayList.BringRecurrentEventsToCurrentWeek | src/AvailabilitiesDayList.js:40-47 | the result has the same length and order; non-recurring events are unchanged; recurring events are projected |
| DayList.AvailabilitiesDayList.RecurringEventToCurrentWeek | src/AvailabilitiesDayList.js:53-76 | the forEach over the seven days returns the projection of the event onto the window |
| DayList.AvailabilitiesDayList.ToDoctolibTestFormat | src/AvailabilitiesDayList.js:92-94 | one record per day in window order, carrying that day's moment and its free labels |
| DayList.FormatIsWeek | src/AvailabilitiesDayList.js:8-21 | a day list built by the constructor formats to `Week(periodStart, events)` |
| DayList.WeekShape | src/AvailabilitiesDayList.js:11-14 | the result has seven records, whose dates are periodStart + 0..6 days, on consecutive calendar days |
| DayList.WeekSlotsExactly | src/AvailabilitiesDayList.js:18-34 | a tick's label is a free slot of day i iff some projected opening covers it and no projected appointment does; a day's slots hold no label twice |
| DayList.WeekSlotsAreLabels | src/AvailabilityDay.js:25 | every slot is the "HH:MM" label of one of the day's 48 ticks |
| DayList.NoEventsNoSlots | src/getAvailabilities.js:25-26 | with no events there are seven records, and every record's slots are empty |
| Availabilities.GetAvailabilities | src/getAvailabilities.js:11-30 | an invalid date gives RangeError('Invalid date supplied') and builds no day; a valid date gives `Week(date, events)` |
| Availabilities.SimpleCaseProjection | src/AvailabilitiesDayList.js:53-76 | the 2014-08-04 Monday template lands on Monday 2014-08-11, in the window starting 2014-08-10 |
| Availabilities.SimpleCase | src/getAvailabilities.test.js:8-46 | the week has seven records; 2014-08-10 has no slot; 2014-08-11 has 09:30, 10:00, 11:30 and 12:00; the last date is 2014-08-16 |
| Availabilities.EventsAcrossDays | src/getAvailabilities.test.js:49-76 | in the window starting 2018-01-08, the long opening minus the long appointment leaves 23:00 and 23:30 free on 2018-01-11 |
| Availabilities.FutureTemplateProjection | src/AvailabilitiesDayList.js:57-70 | the weekly template dated 2018-12-03 is moved onto Monday 2018-01-29 at 06:00-22:00, although its own date lies after the window |
| Availabilities.FutureTemplateFillsMonday | src/getAvailabilities.js:22-26 | since every weekly row reaches the day list, 06:00 is free on 2018-01-29, where the "Future cases" test expects no slot |

## Left out

- Time zones: the tests build some moments from date-only strings
  (`new Date('2018-01-29')`, read as UTC midnight) and others from date-time
  strings (`new Date('2018-12-03 06:00')`, read as local time). The model reads
  every timestamp as local seconds, and its constants are the tests' instants
  when the local zone is UTC. East of UTC a date-only period start is a later
  hour of the same local day, so the days, and the slots, come out the same;
  west of UTC it falls on the previous local day.
- The storage query (`src/getAvailabilities.js:18-24`) is database I/O. The
  fetched events are a parameter, and its predicate (including the
  `orWhere weekly_recurring`) is not modelled. `periodEnd` (`:16`) only feeds
  that query.
- The promise plumbing and the rethrowing `.catch` (`src/getAvailabilities.js:24-29`)
  are not modelled. The result is returned directly.
- moment's parsing is not modelled. `date` arrives as either a local timestamp
  or an invalid date. `moment(undefined)` reads the clock and is valid, so
  `getAvailabilities()` with no argument uses the current time. That path
  needs a clock and is left out.
- Time zones and daylight-saving time are not modelled: every day is
  86400 seconds long. Milliseconds are dropped, so `endOf('day')` is the last
  whole second, and a projected event does not inherit the period start's
  milliseconds. So when the period start carries milliseconds (any Date taken
  from the clock), the source's projected weekly events lose their first
  half-hour slot and gain the one at their end time; the model, in whole
  seconds, shows neither.
- The `date` field of a record is the day's moment as a timestamp. Its
  rendering through `String(Date)` (`src/AvailabilityDay.js:41`) is not modelled.
- An event kind other than opening or appointment makes the source fail at
  `src/AvailabilityDay.js:26`, but only once such an event covers a tick of a
  day that includes it, since that lookup runs only for covered ticks. The
  model's kind is a closed type with those two values.
- Update in place of the caller's event objects: `recurringEventToCurrentWeek`
  overwrites the fields of the fetched event objects. The model returns new
  event values instead. Those objects are created by the query and are not
  visible after the call, so only aliasing is lost.
