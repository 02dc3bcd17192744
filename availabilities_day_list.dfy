/**
 * The week: seven days from the period start, weekly templates moved onto
 * the window, and each day fed the events that overlap it
 * (src/AvailabilitiesDayList.js).
 */
module DayList {
  import opened TimeGrid
  import opened Events
  import opened Day

  const WindowLength: int := 7

  /**
   * isAnIncludedEvent: starts no later than the day's end and ends no earlier
   * than its start, that is, the event starts on or before the calendar day of
   * `moment` and ends on or after it.
   */
  predicate IsAnIncludedEvent(e: Event, moment: int): (r: bool)
    ensures r <==> DayOf(e.startsAt) <= DayOf(moment) <= DayOf(e.endsAt)
  {
    e.startsAt <= EndOfDay(moment) && e.endsAt >= StartOfDay(moment)
  }

  /**
   * The offset in 0..6 of the window day whose weekday is w; seven
   * consecutive days hold every weekday, so there always is one.
   */
  function MatchOffset(periodStart: int, w: int): (i: int)
    requires 0 <= w < 7
    ensures 0 <= i < WindowLength
    ensures Weekday(AddDays(periodStart, i)) == w
  {
    var i := (w - Weekday(periodStart)) % 7;
    AddDaysShift(periodStart, i);
    i
  }

  /**
   * recurringEventToCurrentWeek: the event moved onto the window day with
   * its start's weekday, start and end keeping their hour, minute and second.
   */
  function ProjectRecurring(e: Event, periodStart: int): (r: Event)
    ensures r.kind == e.kind && r.weeklyRecurring == e.weeklyRecurring
    ensures 0 <= DayOf(r.startsAt) - DayOf(periodStart) < WindowLength
    ensures Weekday(r.startsAt) == Weekday(e.startsAt)
    ensures SecondOfDay(r.startsAt) == SecondOfDay(e.startsAt)
    ensures DayOf(r.endsAt) == DayOf(r.startsAt)
    ensures SecondOfDay(r.endsAt) == SecondOfDay(e.endsAt)
  {
    var i := MatchOffset(periodStart, Weekday(e.startsAt));
    var day := AddDays(periodStart, i);
    AddDaysShift(periodStart, i);
    e.(startsAt := AtTimeOf(day, e.startsAt), endsAt := AtTimeOf(day, e.endsAt))
  }

  /** An event as bringRecurrentEventsToCurrentWeek leaves it. */
  function ProjectEvent(e: Event, periodStart: int): Event
  {
    if e.weeklyRecurring then ProjectRecurring(e, periodStart) else e
  }

  function ProjectAll(events: seq<Event>, periodStart: int): seq<Event>
  {
    seq(|events|, i requires 0 <= i < |events| => ProjectEvent(events[i], periodStart))
  }

  /**
   * The list of `kind` after a day at `moment` has been offered `events` in
   * order, absorbing those of that kind that pass isAnIncludedEvent.
   */
  function AbsorbEvents(list: seq<Tick>, moment: int, events: seq<Event>, kind: Kind): seq<Tick>
    decreases |events|
  {
    if events == [] then list
    else AbsorbEvents(Offer(list, moment, events[0], kind), moment, events[1..], kind)
  }

  /** The list of `kind` after one event is offered to the day at `moment`. */
  function Offer(list: seq<Tick>, moment: int, e: Event, kind: Kind): seq<Tick>
  {
    if e.kind == kind && IsAnIncludedEvent(e, moment) then Absorb(list, moment, e) else list
  }

  /** A day's list of `kind` after the whole event list has been offered to a fresh day. */
  function DayTicks(moment: int, events: seq<Event>, kind: Kind): seq<Tick>
  {
    AbsorbEvents([], moment, events, kind)
  }

  /** Some event of `kind` in the list covers tick x of `moment`'s day. */
  ghost predicate TakenBy(events: seq<Event>, moment: int, kind: Kind, x: Tick)
  {
    exists e :: e in events && e.kind == kind && Covers(e, moment, x)
  }

  /** The day record of a fresh day at `moment` after it has been offered `events`. */
  function DayResult(moment: int, events: seq<Event>): DayRecord
  {
    DayRecord(moment, Labels(FreeSlots(DayTicks(moment, events, Opening), DayTicks(moment, events, Appointment))))
  }

  /** The formatted week for a period start and the fetched events. */
  function Week(periodStart: int, events: seq<Event>): seq<DayRecord>
  {
    var projected := ProjectAll(events, periodStart);
    seq(WindowLength, i requires 0 <= i < WindowLength => DayResult(AddDays(periodStart, i), projected))
  }

  /** The day's two lists are what the events it was offered give a fresh day. */
  ghost predicate Holds(day: AvailabilityDay, events: seq<Event>)
    reads day
  {
    day.opening == DayTicks(day.momentObj, events, Opening)
    && day.appointment == DayTicks(day.momentObj, events, Appointment)
  }

  function Formats(days: seq<AvailabilityDay>): (r: seq<DayRecord>)
    reads days
    ensures |r| == |days|
    ensures forall i :: 0 <= i < |days| ==> r[i] == days[i].ToDoctolibTestFormat()
  {
    if days == [] then [] else [days[0].ToDoctolibTestFormat()] + Formats(days[1..])
  }

  class AvailabilitiesDayList {
    /** The seven days of the window, in ascending order. */
    const availabilities: seq<AvailabilityDay>

    ghost predicate Valid()
    {
      |availabilities| == WindowLength
      && (forall i, j :: 0 <= i < j < WindowLength ==> availabilities[i] != availabilities[j])
      && forall i :: 0 <= i < WindowLength ==> availabilities[i].momentObj == AddDays(availabilities[0].momentObj, i)
    }

    /**
     * Builds the days periodStart + 0..6, moves the weekly templates onto
     * them, and offers every day every event.
     */
    constructor (periodStart: int, events: seq<Event>)
      ensures Valid() && availabilities[0].momentObj == periodStart
      ensures forall i :: 0 <= i < WindowLength ==> fresh(availabilities[i])
      ensures forall i :: 0 <= i < WindowLength ==> Holds(availabilities[i], ProjectAll(events, periodStart))
    {
      var days: seq<AvailabilityDay> := [];
      for i := 0 to WindowLength
        invariant |days| == i
        invariant forall j :: 0 <= j < i ==> fresh(days[j])
        invariant forall j :: 0 <= j < i ==> days[j].momentObj == AddDays(periodStart, j)
        invariant forall j :: 0 <= j < i ==> days[j].opening == [] && days[j].appointment == []
        invariant forall j, k :: 0 <= j < k < i ==> days[j] != days[k]
      {
        var day := new AvailabilityDay(AddDays(periodStart, i));
        days := days + [day];
      }
      availabilities := days;
      new;
      var projected := BringRecurrentEventsToCurrentWeek(events);
      for i := 0 to WindowLength
        invariant forall j :: 0 <= j < WindowLength ==> fresh(availabilities[j])
        invariant forall j :: 0 <= j < i ==> Holds(availabilities[j], projected)
        invariant forall j :: i <= j < WindowLength ==> availabilities[j].opening == [] && availabilities[j].appointment == []
      {
        SetTimeSlotsInAvailabilityDay(projected, availabilities[i]);
      }
    }

    /** Offers the events in order to one day; the day absorbs those that overlap it. */
    method SetTimeSlotsInAvailabilityDay(events: seq<Event>, day: AvailabilityDay)
      modifies day
      ensures day.opening == AbsorbEvents(old(day.opening), day.momentObj, events, Opening)
      ensures day.appointment == AbsorbEvents(old(day.appointment), day.momentObj, events, Appointment)
    {
      for i := 0 to |events|
        invariant AbsorbEvents(day.opening, day.momentObj, events[i..], Opening)
               == AbsorbEvents(old(day.opening), day.momentObj, events, Opening)
        invariant AbsorbEvents(day.appointment, day.momentObj, events[i..], Appointment)
               == AbsorbEvents(old(day.appointment), day.momentObj, events, Appointment)
      {
        assert events[i..][0] == events[i] && events[i..][1..] == events[i + 1..];
        if IsAnIncludedEvent(events[i], day.momentObj) {
          day.DestructureEventToSlots(events[i]);
        }
      }
      assert events[|events|..] == [];
    }

    /** Maps every event through the projection, keeping length and order. */
    method BringRecurrentEventsToCurrentWeek(events: seq<Event>) returns (r: seq<Event>)
      requires Valid()
      ensures |r| == |events|
      ensures forall i :: 0 <= i < |events| && !events[i].weeklyRecurring ==> r[i] == events[i]
      ensures forall i :: 0 <= i < |events| && events[i].weeklyRecurring ==>
                r[i] == ProjectRecurring(events[i], availabilities[0].momentObj)
      ensures r == ProjectAll(events, availabilities[0].momentObj)
    {
      r := [];
      for i := 0 to |events|
        invariant |r| == i
        invariant forall j :: 0 <= j < i ==> r[j] == ProjectEvent(events[j], availabilities[0].momentObj)
      {
        var event := events[i];
        if event.weeklyRecurring {
          event := RecurringEventToCurrentWeek(event);
        }
        r := r + [event];
      }
    }

    /**
     * Walks the seven days and, on the one whose weekday is the event's
     * start weekday, overwrites start and end with that day at the
     * original times of day.
     */
    method RecurringEventToCurrentWeek(event: Event) returns (r: Event)
      requires Valid()
      ensures r == ProjectRecurring(event, availabilities[0].momentObj)
    {
      var periodStart := availabilities[0].momentObj;
      var eventStart, eventEnd := event.startsAt, event.endsAt;
      ghost var target := MatchOffset(periodStart, Weekday(eventStart));
      r := event;
      for i := 0 to WindowLength
        invariant r == if target < i then ProjectRecurring(event, periodStart) else event
      {
        var el := availabilities[i];
        if Weekday(eventStart) == Weekday(el.momentObj) {
          MatchOffsetUnique(periodStart, Weekday(eventStart), i);
          r := r.(startsAt := AtTimeOf(el.momentObj, eventStart), endsAt := AtTimeOf(el.momentObj, eventEnd));
        }
      }
    }

    /** One record per day, in window order. */
    function ToDoctolibTestFormat(): (r: seq<DayRecord>)
      reads availabilities
      ensures |r| == |availabilities|
      ensures forall i :: 0 <= i < |r| ==> r[i].date == availabilities[i].momentObj
      ensures forall i :: 0 <= i < |r| ==>
                r[i].slots == FreeSlots(Labels(availabilities[i].opening), Labels(availabilities[i].appointment))
    {
      Formats(availabilities)
    }
  }

  /** A week whose days hold what their events give formats to the week of the specification. */
  lemma FormatIsWeek(list: AvailabilitiesDayList, periodStart: int, events: seq<Event>)
    requires list.Valid() && list.availabilities[0].momentObj == periodStart
    requires forall i :: 0 <= i < WindowLength ==> Holds(list.availabilities[i], ProjectAll(events, periodStart))
    ensures list.ToDoctolibTestFormat() == Week(periodStart, events)
  {
    var out, week := list.ToDoctolibTestFormat(), Week(periodStart, events);
    forall i | 0 <= i < WindowLength
      ensures out[i] == week[i]
    {
      var day := list.availabilities[i];
      LabelsOfFreeSlots(day.opening, day.appointment);
      assert out[i].slots == week[i].slots;
    }
  }

  /** Only one window day has a given weekday. */
  lemma MatchOffsetUnique(periodStart: int, w: int, j: int)
    requires 0 <= w < 7 && 0 <= j < WindowLength
    requires Weekday(AddDays(periodStart, j)) == w
    ensures j == MatchOffset(periodStart, w)
  {
    AddDaysShift(periodStart, j);
    AddDaysShift(periodStart, MatchOffset(periodStart, w));
  }

  /**
   * For an event that does not end before it starts, isAnIncludedEvent
   * holds exactly when some second of the day lies in [starts_at, ends_at].
   */
  lemma IncludedIffOverlaps(e: Event, moment: int)
    requires e.startsAt <= e.endsAt
    ensures IsAnIncludedEvent(e, moment) <==> exists t :: DayOf(t) == DayOf(moment) && e.startsAt <= t <= e.endsAt
  {
    var first, last := StartOfDay(moment), EndOfDay(moment);
    if IsAnIncludedEvent(e, moment) {
      var t := if e.startsAt < first then first else e.startsAt;
      DayOfParts(DayOf(moment), t - first);
      assert DayOf(t) == DayOf(moment);
    }
    if exists t :: DayOf(t) == DayOf(moment) && e.startsAt <= t <= e.endsAt {
      var t :| DayOf(t) == DayOf(moment) && e.startsAt <= t <= e.endsAt;
      assert StartOfDay(t) == first;
    }
  }

  /** A day that would skip an event loses nothing: the event covers none of its ticks. */
  lemma ExcludedAddsNothing(list: seq<Tick>, moment: int, e: Event)
    requires !IsAnIncludedEvent(e, moment)
    ensures Absorb(list, moment, e) == list
  {
    NewTicksExactly(list, moment, e, TicksPerDay);
  }

  /**
   * A weekly template lands on the window day that has its start's
   * weekday, whichever of the offsets 0..6 that day is.
   */
  lemma ProjectionLandsOnMatchingDay(e: Event, periodStart: int, j: int)
    requires 0 <= j < WindowLength
    requires Weekday(AddDays(periodStart, j)) == Weekday(e.startsAt)
    ensures DayOf(ProjectRecurring(e, periodStart).startsAt) == DayOf(AddDays(periodStart, j))
  {
    MatchOffsetUnique(periodStart, Weekday(e.startsAt), j);
    AddDaysShift(periodStart, j);
  }

  /** Projecting an already projected event again yields the same event. */
  lemma ProjectEventIdempotent(e: Event, periodStart: int)
    ensures ProjectEvent(ProjectEvent(e, periodStart), periodStart) == ProjectEvent(e, periodStart)
  {
    if e.weeklyRecurring {
      var once := ProjectRecurring(e, periodStart);
      var twice := ProjectRecurring(once, periodStart);
      assert Weekday(once.startsAt) == Weekday(e.startsAt);
      var day := AddDays(periodStart, MatchOffset(periodStart, Weekday(e.startsAt)));
      assert twice.startsAt == AtTimeOf(day, once.startsAt);
      assert twice.startsAt == StartOfDay(day) + SecondOfDay(once.startsAt);
      assert once.startsAt == StartOfDay(day) + SecondOfDay(e.startsAt);
      assert twice.endsAt == StartOfDay(day) + SecondOfDay(once.endsAt);
      assert once.endsAt == StartOfDay(day) + SecondOfDay(e.endsAt);
    }
  }

  /**
   * Offering events to a day keeps its old entries in place and leaves it
   * holding exactly the old ticks and the ticks some event of that kind
   * covers (the overlap filter drops nothing that would have counted);
   * a list without duplicates stays without duplicates.
   */
  lemma {:induction false} AbsorbEventsExactly(list: seq<Tick>, moment: int, events: seq<Event>, kind: Kind)
    ensures forall x: Tick :: x in AbsorbEvents(list, moment, events, kind) <==> x in list || TakenBy(events, moment, kind, x)
    ensures |AbsorbEvents(list, moment, events, kind)| >= |list|
    ensures AbsorbEvents(list, moment, events, kind)[..|list|] == list
    ensures NoDuplicates(list) ==> NoDuplicates(AbsorbEvents(list, moment, events, kind))
    decreases |events|
  {
    if events != [] {
      var e := events[0];
      var next := Offer(list, moment, e, kind);
      AbsorbShape(list, moment, e);
      if e.kind == kind && !IsAnIncludedEvent(e, moment) {
        ExcludedAddsNothing(list, moment, e);
      }
      AbsorbEventsExactly(next, moment, events[1..], kind);
      forall x: Tick
        ensures TakenBy(events, moment, kind, x) <==> (e.kind == kind && Covers(e, moment, x)) || TakenBy(events[1..], moment, kind, x)
      {
        if TakenBy(events, moment, kind, x) {
          var f :| f in events && f.kind == kind && Covers(f, moment, x);
          if f != e {
            assert f in events[1..];
          }
        }
      }
    }
  }

  /**
   * The ticks a day collects do not depend on the order, or the repetition,
   * in which the events arrive: only on which events there are.
   */
  lemma DayTicksIgnoreArrivalOrder(moment: int, events1: seq<Event>, events2: seq<Event>, kind: Kind)
    requires forall e :: e in events1 <==> e in events2
    ensures forall x: Tick :: x in DayTicks(moment, events1, kind) <==> x in DayTicks(moment, events2, kind)
  {
    AbsorbEventsExactly([], moment, events1, kind);
    AbsorbEventsExactly([], moment, events2, kind);
  }

  /** The result has seven records, for the days periodStart + 0..6 in ascending order. */
  lemma WeekShape(periodStart: int, events: seq<Event>)
    ensures |Week(periodStart, events)| == WindowLength
    ensures forall i :: 0 <= i < WindowLength ==>
              Week(periodStart, events)[i].date == AddDays(periodStart, i)
              && DayOf(Week(periodStart, events)[i].date) == DayOf(periodStart) + i
  {
    forall i | 0 <= i < WindowLength
      ensures DayOf(AddDays(periodStart, i)) == DayOf(periodStart) + i
    {
      AddDaysShift(periodStart, i);
    }
  }

  /**
   * A tick's label is a free slot of day i exactly when some projected
   * opening covers the tick and no projected appointment does; the slots
   * hold no label twice.
   */
  lemma WeekSlotsExactly(periodStart: int, events: seq<Event>, i: int, x: Tick)
    requires 0 <= i < WindowLength
    ensures Render(x) in Week(periodStart, events)[i].slots
        <==> TakenBy(ProjectAll(events, periodStart), AddDays(periodStart, i), Opening, x)
             && !TakenBy(ProjectAll(events, periodStart), AddDays(periodStart, i), Appointment, x)
    ensures NoDuplicates(Week(periodStart, events)[i].slots)
  {
    var projected := ProjectAll(events, periodStart);
    var moment := AddDays(periodStart, i);
    var opening, appointment := DayTicks(moment, projected, Opening), DayTicks(moment, projected, Appointment);
    AbsorbEventsExactly([], moment, projected, Opening);
    AbsorbEventsExactly([], moment, projected, Appointment);
    FreeLabelsExactly(opening, appointment);
    FreeSlotsSpec(opening, appointment);
    LabelsKeepNoDuplicates(FreeSlots(opening, appointment), opening);
  }

  /** Labels of a list drawn from a duplicate-free list are duplicate-free. */
  lemma {:induction false} LabelsKeepNoDuplicates(r: seq<Tick>, s: seq<Tick>)
    requires IsSubsequence(r, s) && NoDuplicates(s)
    ensures NoDuplicates(Labels(r))
  {
    SubsequenceKeepsNoDuplicates(r, s);
    forall i, j | 0 <= i < j < |r|
      ensures Labels(r)[i] != Labels(r)[j]
    {
      RenderInjective(r[i], r[j]);
    }
  }

  lemma {:induction false} SubsequenceKeepsNoDuplicates<T>(r: seq<T>, s: seq<T>)
    requires IsSubsequence(r, s) && NoDuplicates(s)
    ensures NoDuplicates(r) && forall x :: x in r ==> x in s
  {
    if r != [] {
      assert s != [];
      if r[0] == s[0] && IsSubsequence(r[1..], s[1..]) {
        SubsequenceKeepsNoDuplicates(r[1..], s[1..]);
        assert forall x :: x in s[1..] ==> x != s[0];
        assert forall j :: 1 <= j < |r| ==> r[j] in r[1..];
      } else {
        SubsequenceKeepsNoDuplicates(r, s[1..]);
      }
    }
  }

  /** With no events, every one of the seven days has no free slot. */
  lemma NoEventsNoSlots(periodStart: int)
    ensures |Week(periodStart, [])| == WindowLength
    ensures forall i :: 0 <= i < WindowLength ==> Week(periodStart, [])[i].slots == []
  {
    assert ProjectAll([], periodStart) == [];
  }

  /** Every free slot is the "HH:MM" label of one of the day's 48 ticks. */
  lemma WeekSlotsAreLabels(periodStart: int, events: seq<Event>, i: int)
    requires 0 <= i < WindowLength
    ensures forall s :: s in Week(periodStart, events)[i].slots ==> exists k: Tick :: s == Render(k)
  {
    var slots := Week(periodStart, events)[i].slots;
    forall s | s in slots
      ensures exists k: Tick :: s == Render(k)
    {
      var projected := ProjectAll(events, periodStart);
      var moment := AddDays(periodStart, i);
      var ks := FreeSlots(DayTicks(moment, projected, Opening), DayTicks(moment, projected, Appointment));
      var j :| 0 <= j < |slots| && slots[j] == s;
      assert s == Render(ks[j]);
    }
  }

  /**
   * A weekly template that runs past midnight keeps only its end's time of
   * day: Monday 22:00 to Tuesday 02:00 becomes Monday 22:00 to Monday
   * 02:00, which ends before it starts and takes no tick on any day.
   */
  lemma OvernightTemplateTakesNoTicks(list: seq<Tick>, moment: int)
    ensures var r := ProjectRecurring(Event(Opening, 4 * SecondsPerDay + 79200, 5 * SecondsPerDay + 7200, true), 0);
            r.startsAt == 4 * SecondsPerDay + 79200
            && r.endsAt == 4 * SecondsPerDay + 7200
            && Absorb(list, moment, r) == list
  {
    var e := Event(Opening, 4 * SecondsPerDay + 79200, 5 * SecondsPerDay + 7200, true);
    assert Weekday(e.startsAt) == 1 && Weekday(0) == 4;
    assert MatchOffset(0, 1) == 4;
    var r := ProjectRecurring(e, 0);
    assert r.startsAt == 4 * SecondsPerDay + 79200 && r.endsAt == 4 * SecondsPerDay + 7200;
    AbsorbEmptyInterval(list, moment, r);
  }
}
