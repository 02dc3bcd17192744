/**
 * The entry point: reject an invalid date, otherwise build the week for the
 * fetched events and return its records (src/getAvailabilities.js).
 */
module Availabilities {
  import opened TimeGrid
  import opened Events
  import opened Day
  import opened DayList

  /** The `date` argument once moment has read it: a local timestamp, or not a valid date. */
  datatype DateArg = At(t: int) | InvalidDate

  datatype Error = RangeError(message: string)

  datatype Result<T> = Ok(value: T) | Err(error: Error)

  /**
   * getAvailabilities(date) on the events the query returned: RangeError
   * 'Invalid date supplied' before anything is built, or the seven records.
   */
  method GetAvailabilities(date: DateArg, events: seq<Event>) returns (r: Result<seq<DayRecord>>)
    ensures date.InvalidDate? <==> r.Err?
    ensures date.InvalidDate? ==> r == Err(RangeError("Invalid date supplied"))
    ensures date.At? ==> r == Ok(Week(date.t, events))
  {
    if date.InvalidDate? {
      return Err(RangeError("Invalid date supplied"));
    }
    var periodStart := date.t;
    var list := new AvailabilitiesDayList(periodStart, events);
    var out := list.ToDoctolibTestFormat();
    FormatIsWeek(list, periodStart, events);
    return Ok(out);
  }

  /** Local midnight of 2014-08-10, a Sunday. */
  const Aug10: int := 1407628800
  /** Local midnight of 2014-08-11, a Monday. */
  const Aug11: int := 1407715200

  /** The weekly opening of the simple case and the appointment of the week after. */
  const WeeklyOpening: Event := Event(Opening, 1407110400 + 34200, 1407110400 + 45000, true)
  const MondayAppointment: Event := Event(Appointment, Aug11 + 37800, Aug11 + 41400, false)
  /** The weekly opening once moved onto Monday 2014-08-11. */
  const MovedOpening: Event := Event(Opening, Aug11 + 34200, Aug11 + 45000, true)

  /** The Monday 2014-08-04 template lands on Monday 2014-08-11, the second day of the window. */
  lemma SimpleCaseProjection()
    ensures ProjectAll([WeeklyOpening, MondayAppointment], Aug10) == [MovedOpening, MondayAppointment]
  {
    assert Weekday(WeeklyOpening.startsAt) == 1 && Weekday(Aug10) == 0;
    assert ProjectRecurring(WeeklyOpening, Aug10) == MovedOpening;
  }

  /** Sunday 2014-08-10: both events lie after the day, so it has no slot. */
  lemma SimpleCaseSunday()
    ensures DayResult(Aug10, [MovedOpening, MondayAppointment]).slots == []
  {
    var events := [MovedOpening, MondayAppointment];
    assert events[1..] == [MondayAppointment] && events[1..][1..] == [];
    assert !IsAnIncludedEvent(MovedOpening, Aug10) && !IsAnIncludedEvent(MondayAppointment, Aug10);
    assert DayTicks(Aug10, events, Opening) == AbsorbEvents([], Aug10, [MondayAppointment], Opening) == [];
  }

  /** Monday 2014-08-11: the opening takes ticks 19..24 and the appointment ticks 21..22. */
  lemma SimpleCaseMondayTicks()
    ensures DayTicks(Aug11, [MovedOpening, MondayAppointment], Opening) == Span(19, 25)
    ensures DayTicks(Aug11, [MovedOpening, MondayAppointment], Appointment) == Span(21, 23)
  {
    var events := [MovedOpening, MondayAppointment];
    assert events[1..] == [MondayAppointment] && events[1..][1..] == [];
    assert IsAnIncludedEvent(MovedOpening, Aug11) && IsAnIncludedEvent(MondayAppointment, Aug11);
    assert FirstTick(MovedOpening, Aug11) == 19 && EndTick(MovedOpening, Aug11) == 25;
    assert FirstTick(MondayAppointment, Aug11) == 21 && EndTick(MondayAppointment, Aug11) == 23;
    AbsorbRun([], Aug11, MovedOpening);
    AbsorbRun([], Aug11, MondayAppointment);
    assert Offer([], Aug11, MovedOpening, Opening) == Span(19, 25);
    assert Offer(Span(19, 25), Aug11, MondayAppointment, Opening) == Span(19, 25);
    assert DayTicks(Aug11, events, Opening) == AbsorbEvents(Span(19, 25), Aug11, [MondayAppointment], Opening);
    assert Offer([], Aug11, MovedOpening, Appointment) == [];
    assert Offer([], Aug11, MondayAppointment, Appointment) == Span(21, 23);
    assert DayTicks(Aug11, events, Appointment) == AbsorbEvents([], Aug11, [MondayAppointment], Appointment);
  }

  lemma SimpleCaseMondayFree()
    ensures FreeSlots(Span(19, 25), Span(21, 23)) == [19, 20, 23, 24]
  {
    FreeSlotsOfSpans(19, 25, 21, 23);
    assert Span(19, 21) + Span(23, 25) == [19, 20, 23, 24];
  }

  lemma SimpleCaseMondayLabels()
    ensures Labels([19, 20, 23, 24]) == ["09:30", "10:00", "11:30", "12:00"]
  {
    assert Labels([19, 20, 23, 24]) == [Render(19), Render(20), Render(23), Render(24)];
    MorningLabels();
  }

  lemma MorningLabels()
    ensures Render(19) == "09:30" && Render(20) == "10:00" && Render(23) == "11:30" && Render(24) == "12:00"
  {
    EarlyMorningLabels();
    LateMorningLabels();
  }

  lemma EarlyMorningLabels()
    ensures Render(19) == "09:30" && Render(20) == "10:00"
  {
    RenderHalfHours(19);
    RenderHalfHours(20);
    assert TwoDigits(9) == "09" && TwoDigits(10) == "10";
  }

  lemma LateMorningLabels()
    ensures Render(23) == "11:30" && Render(24) == "12:00"
  {
    RenderHalfHours(23);
    RenderHalfHours(24);
    assert TwoDigits(11) == "11" && TwoDigits(12) == "12";
  }

  lemma LateLabels()
    ensures Render(46) == "23:00" && Render(47) == "23:30"
  {
    RenderHalfHours(46);
    RenderHalfHours(47);
    assert TwoDigits(23) == "23";
  }

  /** Monday 2014-08-11 offers 09:30, 10:00, 11:30 and 12:00. */
  lemma SimpleCaseMonday()
    ensures DayResult(Aug11, [MovedOpening, MondayAppointment]).slots == ["09:30", "10:00", "11:30", "12:00"]
  {
    SimpleCaseMondayTicks();
    SimpleCaseMondayFree();
    SimpleCaseMondayLabels();
  }

  /**
   * A weekly opening on Monday 2014-08-04 09:30-12:30 and an appointment
   * on Monday 2014-08-11 10:30-11:30, window from 2014-08-10: Sunday is
   * empty and Monday offers 09:30, 10:00, 11:30 and 12:00.
   */
  lemma SimpleCase()
    ensures var week := Week(Aug10, [WeeklyOpening, MondayAppointment]);
            |week| == 7
            && week[0].slots == []
            && week[1].date == Aug11
            && week[1].slots == ["09:30", "10:00", "11:30", "12:00"]
            && week[6].date == Aug10 + 6 * SecondsPerDay
  {
    SimpleCaseProjection();
    SimpleCaseSunday();
    SimpleCaseMonday();
    assert AddDays(Aug10, 1) == Aug11;
  }

  /** Local midnight of 2018-01-08, a Monday. */
  const Jan08: int := 1515369600
  /** Local midnight of 2018-01-11, a Thursday. */
  const Jan11: int := 1515628800

  const LongOpening: Event := Event(Opening, Jan08 + 21600, 1515888000 + 79200, false)
  const LongAppointment: Event := Event(Appointment, Jan08 + 18000, Jan11 + 82800, false)

  /** On 2018-01-11 the opening takes every tick and the appointment ticks 0..45. */
  lemma EventsAcrossDaysTicks()
    ensures DayTicks(Jan11, [LongOpening, LongAppointment], Opening) == Span(0, 48)
    ensures DayTicks(Jan11, [LongOpening, LongAppointment], Appointment) == Span(0, 46)
  {
    var events := [LongOpening, LongAppointment];
    assert events[1..] == [LongAppointment] && events[1..][1..] == [];
    assert IsAnIncludedEvent(LongOpening, Jan11) && IsAnIncludedEvent(LongAppointment, Jan11);
    assert FirstTick(LongOpening, Jan11) == 0 && EndTick(LongOpening, Jan11) == 48;
    assert FirstTick(LongAppointment, Jan11) == 0 && EndTick(LongAppointment, Jan11) == 46;
    AbsorbRun([], Jan11, LongOpening);
    AbsorbRun([], Jan11, LongAppointment);
    assert Offer([], Jan11, LongOpening, Opening) == Span(0, 48);
    assert Offer(Span(0, 48), Jan11, LongAppointment, Opening) == Span(0, 48);
    assert DayTicks(Jan11, events, Opening) == AbsorbEvents(Span(0, 48), Jan11, [LongAppointment], Opening);
    assert Offer([], Jan11, LongOpening, Appointment) == [];
    assert Offer([], Jan11, LongAppointment, Appointment) == Span(0, 46);
    assert DayTicks(Jan11, events, Appointment) == AbsorbEvents([], Jan11, [LongAppointment], Appointment);
  }

  lemma EventsAcrossDaysFree()
    ensures Labels(FreeSlots(Span(0, 48), Span(0, 46))) == ["23:00", "23:30"]
  {
    FreeSlotsOfSpans(0, 48, 0, 46);
    assert Span(46, 48) == [46, 47];
    assert Labels([46, 47]) == [Render(46), Render(47)];
    LateLabels();
  }

  /**
   * An opening 2018-01-08 06:00 to 2018-01-14 22:00 and an appointment
   * 2018-01-08 05:00 to 2018-01-11 23:00, window from 2018-01-08: on
   * 2018-01-11 only 23:00 and 23:30 are free.
   */
  lemma EventsAcrossDays()
    ensures var week := Week(Jan08, [LongOpening, LongAppointment]);
            |week| == 7
            && week[3].date == Jan11
            && week[3].slots == ["23:00", "23:30"]
  {
    var events := [LongOpening, LongAppointment];
    assert ProjectAll(events, Jan08) == events;
    assert AddDays(Jan08, 3) == Jan11;
    EventsAcrossDaysTicks();
    EventsAcrossDaysFree();
  }

  /** Local midnight of 2018-01-29, a Monday. */
  const Jan29: int := 1517184000

  /** A weekly opening template dated 2018-12-03 (a Monday), 06:00-22:00. */
  const FutureOpening: Event := Event(Opening, 1543795200 + 21600, 1543795200 + 79200, true)

  /** The template lands on 2018-01-29 itself, with its times of day kept. */
  lemma FutureTemplateProjection()
    ensures ProjectAll([FutureOpening], Jan29) == [Event(Opening, Jan29 + 21600, Jan29 + 79200, true)]
  {
    assert Weekday(FutureOpening.startsAt) == 1 && Weekday(Jan29) == 1;
    assert ProjectRecurring(FutureOpening, Jan29) == Event(Opening, Jan29 + 21600, Jan29 + 79200, true);
  }

  lemma SixOClockLabel()
    ensures Render(12) == "06:00"
  {
    RenderHalfHours(12);
    assert TwoDigits(6) == "06";
  }

  /**
   * A weekly template whose own date lies after the window is still projected
   * onto the window's Monday: 06:00 is free on 2018-01-29.
   */
  lemma FutureTemplateFillsMonday()
    ensures "06:00" in Week(Jan29, [FutureOpening])[0].slots
  {
    var projected := [Event(Opening, Jan29 + 21600, Jan29 + 79200, true)];
    FutureTemplateProjection();
    assert AddDays(Jan29, 0) == Jan29;
    assert Covers(projected[0], Jan29, 12);
    assert TakenBy(projected, Jan29, Opening, 12);
    assert !TakenBy(projected, Jan29, Appointment, 12);
    SixOClockLabel();
    WeekSlotsExactly(Jan29, [FutureOpening], 0, 12);
  }
}
