/**
 * One day of the queried week: its moment, and the tick labels that
 * opening and appointment events take on it (src/AvailabilityDay.js).
 */
module Day {
  import opened TimeGrid
  import opened Events

  /** What a day exports: its moment and its free slot labels. */
  datatype DayRecord = DayRecord(date: int, slots: seq<string>)

  /** Tick k of `moment`'s day lies in [e.startsAt, e.endsAt), the '[)' isBetween test. */
  predicate Covers(e: Event, moment: int, k: int)
  {
    e.startsAt <= TickTime(moment, k) < e.endsAt
  }

  predicate NoDuplicates<T(==)>(s: seq<T>)
  {
    forall i, j :: 0 <= i < j < |s| ==> s[i] != s[j]
  }

  predicate Increasing(s: seq<int>)
  {
    forall i, j :: 0 <= i < j < |s| ==> s[i] < s[j]
  }

  /** r is s with some elements deleted, the rest in their order. */
  predicate IsSubsequence<T(==)>(r: seq<T>, s: seq<T>)
  {
    r == [] || (s != [] && ((r[0] == s[0] && IsSubsequence(r[1..], s[1..])) || IsSubsequence(r, s[1..])))
  }

  /**
   * The labels that absorbing e appends to `list`, looking at the first n
   * ticks of the day in time order: a covered tick not yet in `list`.
   */
  function NewTicks(list: seq<Tick>, moment: int, e: Event, n: nat): seq<Tick>
    requires n <= TicksPerDay
  {
    if n == 0 then []
    else
      NewTicks(list, moment, e, n - 1)
      + (if Covers(e, moment, n - 1) && n - 1 !in list then [n - 1] else [])
  }

  /** The list of `kind` after destructureEventToSlots(e) on `moment`'s day. */
  function Absorb(list: seq<Tick>, moment: int, e: Event): seq<Tick>
  {
    list + NewTicks(list, moment, e, TicksPerDay)
  }

  /** opening.filter(el => !appointment.includes(el)). */
  function FreeSlots<T(==)>(opening: seq<T>, appointment: seq<T>): seq<T>
  {
    if opening == [] then []
    else if opening[0] in appointment then FreeSlots(opening[1..], appointment)
    else [opening[0]] + FreeSlots(opening[1..], appointment)
  }

  /**
   * The filter keeps exactly the opening entries that are not appointment
   * entries, deleting the others and keeping the order of the rest; an
   * entry that is kept keeps every one of its occurrences.
   */
  lemma {:induction false} FreeSlotsSpec<T>(opening: seq<T>, appointment: seq<T>)
    ensures forall x :: x in FreeSlots(opening, appointment) <==> x in opening && x !in appointment
    ensures IsSubsequence(FreeSlots(opening, appointment), opening)
    ensures forall x :: multiset(FreeSlots(opening, appointment))[x]
                        == if x in appointment then 0 else multiset(opening)[x]
  {
    if opening != [] {
      FreeSlotsSpec(opening[1..], appointment);
      assert forall x :: x in opening <==> x == opening[0] || x in opening[1..];
      assert opening == [opening[0]] + opening[1..];
    }
  }

  function Labels(ks: seq<Tick>): seq<string>
  {
    seq(|ks|, i requires 0 <= i < |ks| => Render(ks[i]))
  }

  class AvailabilityDay {
    /** The day's moment; only its calendar day matters to the slots. */
    const momentObj: int
    /** Labels taken by opening events, in the order they were first taken. */
    var opening: seq<Tick>
    /** Labels taken by appointment events, in the order they were first taken. */
    var appointment: seq<Tick>

    constructor (date: int)
      ensures momentObj == date
      ensures opening == [] && appointment == []
    {
      momentObj := date;
      opening := [];
      appointment := [];
    }

    /**
     * Walks the day's ticks from midnight in 30-minute steps and appends
     * each tick inside [e.startsAt, e.endsAt) to the list of e.kind,
     * unless that list already holds it.
     */
    method DestructureEventToSlots(e: Event)
      modifies this
      ensures opening == if e.kind == Opening then Absorb(old(opening), momentObj, e) else old(opening)
      ensures appointment == if e.kind == Appointment then Absorb(old(appointment), momentObj, e) else old(appointment)
    {
      ghost var before := if e.kind == Opening then opening else appointment;
      var time := StartOfDay(momentObj);
      var endOfDay := EndOfDay(momentObj);
      var k := 0;  // the label of `time`
      while time < endOfDay
        invariant 0 <= k <= TicksPerDay
        invariant time == TickTime(momentObj, k)
        invariant e.kind == Opening ==> opening == before + NewTicks(before, momentObj, e, k) && appointment == old(appointment)
        invariant e.kind == Appointment ==> appointment == before + NewTicks(before, momentObj, e, k) && opening == old(opening)
      {
        if e.startsAt <= time < e.endsAt {
          NewTicksBelow(before, momentObj, e, k);
          if e.kind == Opening {
            if k !in opening {
              opening := opening + [k];
            }
          } else {
            if k !in appointment {
              appointment := appointment + [k];
            }
          }
        }
        time := time + SlotSeconds;
        k := k + 1;
      }
    }

    /**
     * The day's output record: its moment and the opening labels that no
     * appointment takes, in the order of the opening list.
     */
    function ToDoctolibTestFormat(): (r: DayRecord)
      reads this
      ensures r.date == momentObj
      ensures r.slots == FreeSlots(Labels(opening), Labels(appointment))
      ensures forall k: Tick :: Render(k) in r.slots <==> k in opening && k !in appointment
    {
      LabelsOfFreeSlots(opening, appointment);
      FreeLabelsExactly(opening, appointment);
      DayRecord(momentObj, Labels(FreeSlots(opening, appointment)))
    }
  }

  /** Every tick NewTicks yields lies below n, so a tick n is not among them. */
  lemma {:induction false} NewTicksBelow(list: seq<Tick>, moment: int, e: Event, n: nat)
    requires n <= TicksPerDay
    ensures forall x :: x in NewTicks(list, moment, e, n) ==> x < n
  {
    if n > 0 {
      NewTicksBelow(list, moment, e, n - 1);
    }
  }

  /**
   * The ticks appended are exactly the covered ticks below n that the list
   * did not hold, in ascending time order; none at all when every covered
   * tick below n is already there.
   */
  lemma NewTicksExactly(list: seq<Tick>, moment: int, e: Event, n: nat)
    requires n <= TicksPerDay
    ensures forall x :: x in NewTicks(list, moment, e, n) <==> 0 <= x < n && Covers(e, moment, x) && x !in list
    ensures Increasing(NewTicks(list, moment, e, n))
    ensures (forall x: Tick :: x < n && Covers(e, moment, x) ==> x in list) ==> NewTicks(list, moment, e, n) == []
  {
    NewTicksMembers(list, moment, e, n);
    NewTicksIncreasing(list, moment, e, n);
    if forall x: Tick :: x < n && Covers(e, moment, x) ==> x in list {
      NewTicksNone(list, moment, e, n);
    }
  }

  lemma {:induction false} NewTicksNone(list: seq<Tick>, moment: int, e: Event, n: nat)
    requires n <= TicksPerDay
    requires forall x: Tick :: x < n && Covers(e, moment, x) ==> x in list
    ensures NewTicks(list, moment, e, n) == []
  {
    if n > 0 {
      NewTicksNone(list, moment, e, n - 1);
    }
  }

  lemma {:induction false} NewTicksMembers(list: seq<Tick>, moment: int, e: Event, n: nat)
    requires n <= TicksPerDay
    ensures forall x :: x in NewTicks(list, moment, e, n) <==> 0 <= x < n && Covers(e, moment, x) && x !in list
  {
    if n > 0 {
      NewTicksMembers(list, moment, e, n - 1);
    }
  }

  lemma {:induction false} NewTicksIncreasing(list: seq<Tick>, moment: int, e: Event, n: nat)
    requires n <= TicksPerDay
    ensures Increasing(NewTicks(list, moment, e, n))
  {
    if n > 0 {
      NewTicksIncreasing(list, moment, e, n - 1);
      NewTicksBelow(list, moment, e, n - 1);
      var prefix := NewTicks(list, moment, e, n - 1);
      var step: seq<Tick> := if Covers(e, moment, n - 1) && n - 1 !in list then [n - 1] else [];
      var r := prefix + step;
      forall i, j | 0 <= i < j < |r|
        ensures r[i] < r[j]
      {
        if j >= |prefix| {
          assert r[j] == n - 1 && r[i] == prefix[i] && prefix[i] in prefix;
        }
      }
    }
  }

  /**
   * Absorbing e keeps the old entries in place and appends, in ascending
   * time order, exactly the covered ticks the list lacked, so a list
   * without duplicates stays without duplicates.
   */
  lemma AbsorbShape(list: seq<Tick>, moment: int, e: Event)
    ensures forall x: Tick :: x in Absorb(list, moment, e) <==> x in list || Covers(e, moment, x)
    ensures Absorb(list, moment, e)[..|list|] == list
    ensures Increasing(Absorb(list, moment, e)[|list|..])
    ensures NoDuplicates(list) ==> NoDuplicates(Absorb(list, moment, e))
  {
    var added := NewTicks(list, moment, e, TicksPerDay);
    NewTicksExactly(list, moment, e, TicksPerDay);
    assert Absorb(list, moment, e)[|list|..] == added;
    if NoDuplicates(list) {
      var r := Absorb(list, moment, e);
      forall i, j | 0 <= i < j < |r|
        ensures r[i] != r[j]
      {
        if j >= |list| {
          assert r[j] == added[j - |list|] && r[j] in added;
          if i < |list| {
            assert r[i] in list;
          }
        }
      }
    }
  }

  /** Absorbing the same event a second time changes nothing. */
  lemma AbsorbIdempotent(list: seq<Tick>, moment: int, e: Event)
    ensures Absorb(Absorb(list, moment, e), moment, e) == Absorb(list, moment, e)
  {
    var once := Absorb(list, moment, e);
    AbsorbShape(list, moment, e);
    NewTicksExactly(once, moment, e, TicksPerDay);
  }

  /** An event with starts_at >= ends_at covers no tick and adds nothing. */
  lemma AbsorbEmptyInterval(list: seq<Tick>, moment: int, e: Event)
    requires e.startsAt >= e.endsAt
    ensures Absorb(list, moment, e) == list
  {
    NewTicksExactly(list, moment, e, TicksPerDay);
  }

  /**
   * The lists keep arrival order, not time-of-day order: an opening at
   * 10:00-10:30 absorbed before one at 09:00-09:30 leaves [10:00, 09:00].
   */
  lemma ArrivalOrderIsKept()
    ensures Absorb(Absorb([], 0, Event(Opening, 36000, 37800, false)), 0, Event(Opening, 32400, 34200, false)) == [20, 18]
    ensures !Increasing([20, 18])
  {
    var first := Event(Opening, 36000, 37800, false);
    var second := Event(Opening, 32400, 34200, false);
    assert StartOfDay(0) == 0;
    assert forall x: Tick :: TickTime(0, x) == x * SlotSeconds;
    assert FirstTick(first, 0) == 20 && EndTick(first, 0) == 21;
    AbsorbRun([], 0, first);
    assert Absorb([], 0, first) == [20];
    assert FirstTick(second, 0) == 18 && EndTick(second, 0) == 19;
    AbsorbRun([20], 0, second);
    assert Absorb([20], 0, second) == [20, 18];
    assert !([20, 18][0] < [20, 18][1]);
  }

  /** The ticks lo, lo+1, ..., hi-1 in ascending order (empty when hi <= lo). */
  function Span(lo: nat, hi: int): seq<Tick>
    requires hi <= TicksPerDay
    decreases hi - lo
  {
    if lo >= hi then [] else [lo] + Span(lo + 1, hi)
  }

  /** The first tick of `moment`'s day at or after starts_at (48 when there is none). */
  function FirstTick(e: Event, moment: int): nat
  {
    ClampRun((e.startsAt - StartOfDay(moment) + SlotSeconds - 1) / SlotSeconds)
  }

  /** One past the last tick of `moment`'s day before ends_at (0 when there is none). */
  function EndTick(e: Event, moment: int): nat
  {
    ClampRun((e.endsAt - StartOfDay(moment) + SlotSeconds - 1) / SlotSeconds)
  }

  function ClampRun(x: int): (r: nat)
    ensures r <= TicksPerDay
  {
    if x < 0 then 0 else if x > TicksPerDay then TicksPerDay else x
  }

  /** The ticks an event covers on a day form one contiguous run. */
  lemma CoversIsRun(e: Event, moment: int, x: Tick)
    ensures Covers(e, moment, x) <==> FirstTick(e, moment) <= x < EndTick(e, moment)
  {
  }

  lemma {:induction false} SpanSnoc(lo: nat, hi: int)
    requires lo <= hi < TicksPerDay
    ensures Span(lo, hi + 1) == Span(lo, hi) + [hi]
    decreases hi - lo
  {
    if lo < hi {
      SpanSnoc(lo + 1, hi);
    }
  }

  lemma {:induction false} NewTicksOfRun(list: seq<Tick>, moment: int, e: Event, n: nat)
    requires n <= TicksPerDay
    requires forall x :: x in list ==> !(FirstTick(e, moment) <= x < EndTick(e, moment))
    ensures NewTicks(list, moment, e, n) == Span(FirstTick(e, moment), if EndTick(e, moment) < n then EndTick(e, moment) else n)
  {
    var lo, hi := FirstTick(e, moment), EndTick(e, moment);
    if n > 0 {
      NewTicksOfRun(list, moment, e, n - 1);
      CoversIsRun(e, moment, n - 1);
      if lo <= n - 1 < hi {
        SpanSnoc(lo, n - 1);
      }
    }
  }

  /**
   * Absorbing an event into a list that holds none of its ticks appends the
   * event's run of ticks: from the first tick at or after starts_at up to
   * the last tick before ends_at, in ascending order.
   */
  lemma AbsorbRun(list: seq<Tick>, moment: int, e: Event)
    requires forall x :: x in list ==> !(FirstTick(e, moment) <= x < EndTick(e, moment))
    ensures Absorb(list, moment, e) == list + Span(FirstTick(e, moment), EndTick(e, moment))
  {
    NewTicksOfRun(list, moment, e, TicksPerDay);
  }

  /** Removing a run of appointment ticks from a run of opening ticks leaves the parts before and after it. */
  lemma {:induction false} FreeSlotsOfSpans(lo: nat, hi: int, lo2: nat, hi2: int)
    requires hi <= TicksPerDay && hi2 <= TicksPerDay && lo2 < hi2
    ensures FreeSlots(Span(lo, hi), Span(lo2, hi2))
         == Span(lo, if hi < lo2 then hi else lo2) + Span(if lo < hi2 then hi2 else lo, hi)
    decreases hi - lo
  {
    SpanMembers(lo2, hi2);
    if lo < hi {
      FreeSlotsOfSpans(lo + 1, hi, lo2, hi2);
    }
  }

  lemma {:induction false} SpanMembers(lo: nat, hi: int)
    requires hi <= TicksPerDay
    ensures forall x :: x in Span(lo, hi) <==> lo <= x < hi
    decreases hi - lo
  {
    if lo < hi {
      SpanMembers(lo + 1, hi);
    }
  }

  /** A tick's label occurs among the labels of ks exactly when the tick occurs in ks. */
  lemma LabelIn(ks: seq<Tick>, k: Tick)
    ensures Render(k) in Labels(ks) <==> k in ks
  {
    if Render(k) in Labels(ks) {
      var i :| 0 <= i < |ks| && Labels(ks)[i] == Render(k);
      RenderInjective(k, ks[i]);
    }
    if k in ks {
      var i :| 0 <= i < |ks| && ks[i] == k;
      assert Labels(ks)[i] == Render(k);
    }
  }

  /** The free labels are the labels of the opening ticks that no appointment takes. */
  lemma FreeLabelsExactly(opening: seq<Tick>, appointment: seq<Tick>)
    ensures forall k: Tick :: Render(k) in Labels(FreeSlots(opening, appointment)) <==> k in opening && k !in appointment
  {
    forall k: Tick
      ensures Render(k) in Labels(FreeSlots(opening, appointment)) <==> k in opening && k !in appointment
    {
      LabelIn(FreeSlots(opening, appointment), k);
      FreeSlotsSpec(opening, appointment);
    }
  }

  lemma LabelsCons(k: Tick, ks: seq<Tick>)
    ensures Labels([k] + ks) == [Render(k)] + Labels(ks)
  {
  }

  lemma LabelsTail(ks: seq<Tick>)
    requires ks != []
    ensures Labels(ks) != [] && Labels(ks)[0] == Render(ks[0]) && Labels(ks)[1..] == Labels(ks[1..])
  {
  }

  /** Rendering the filtered ticks is filtering the rendered labels (labels are injective). */
  lemma {:induction false} LabelsOfFreeSlots(opening: seq<Tick>, appointment: seq<Tick>)
    ensures Labels(FreeSlots(opening, appointment)) == FreeSlots(Labels(opening), Labels(appointment))
  {
    if opening != [] {
      var lo, la := Labels(opening), Labels(appointment);
      var rest := FreeSlots(opening[1..], appointment);
      LabelsOfFreeSlots(opening[1..], appointment);
      LabelsTail(opening);
      LabelIn(appointment, opening[0]);
      if opening[0] !in appointment {
        LabelsCons(opening[0], rest);
      }
    }
  }
}
