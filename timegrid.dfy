/**
 * Local calendar time as the availability engine sees it: whole seconds,
 * days of 86400 seconds starting at local midnight, and the 48 half-hour
 * ticks of a day labelled "HH:MM".
 */
module TimeGrid {

  const SecondsPerDay: int := 86400
  const SlotSeconds: int := 1800
  const TicksPerDay: int := 48

  /** The label of a tick is its position 0..47 within the day. */
  type Tick = k: int | 0 <= k < 48

  /** Index of the local day holding timestamp t; day 0 is 1970-01-01. */
  function DayOf(t: int): int
  {
    t / SecondsPerDay
  }

  /** Seconds elapsed since local midnight. */
  function SecondOfDay(t: int): (s: int)
    ensures 0 <= s < SecondsPerDay
    ensures t == DayOf(t) * SecondsPerDay + s
  {
    t % SecondsPerDay
  }

  /** moment(t).startOf('day'). */
  function StartOfDay(t: int): (r: int)
    ensures r <= t < r + SecondsPerDay
    ensures DayOf(r) == DayOf(t) && SecondOfDay(r) == 0
  {
    DayOf(t) * SecondsPerDay
  }

  /** moment(t).endOf('day'), to the second: the last second of t's day. */
  function EndOfDay(t: int): (r: int)
    ensures t <= r < t + SecondsPerDay
    ensures DayOf(r) == DayOf(t) && SecondOfDay(r) == SecondsPerDay - 1
  {
    StartOfDay(t) + SecondsPerDay - 1
  }

  /** moment(t).add(i, 'day'), days being 24 hours long. */
  function AddDays(t: int, i: int): int
  {
    t + i * SecondsPerDay
  }

  /** moment(t).day(): 0 is Sunday; 1970-01-01 was a Thursday. */
  function Weekday(t: int): (w: int)
    ensures 0 <= w < 7
  {
    (DayOf(t) + 4) % 7
  }

  /** moment(day).set({hour, minute, second}) with the time of day taken from `time`. */
  function AtTimeOf(day: int, time: int): (r: int)
    ensures DayOf(r) == DayOf(day)
    ensures SecondOfDay(r) == SecondOfDay(time)
  {
    DayOfParts(DayOf(day), SecondOfDay(time));
    StartOfDay(day) + SecondOfDay(time)
  }

  /** Timestamp of tick k of the day holding `moment`. */
  function TickTime(moment: int, k: int): int
  {
    StartOfDay(moment) + k * SlotSeconds
  }

  /** A timestamp is determined by its day and its second of the day. */
  lemma DayOfParts(d: int, s: int)
    requires 0 <= s < SecondsPerDay
    ensures DayOf(d * SecondsPerDay + s) == d
    ensures SecondOfDay(d * SecondsPerDay + s) == s
  {
  }

  /** Adding i days moves the day index by i and keeps the time of day. */
  lemma AddDaysShift(t: int, i: int)
    ensures DayOf(AddDays(t, i)) == DayOf(t) + i
    ensures SecondOfDay(AddDays(t, i)) == SecondOfDay(t)
    ensures Weekday(AddDays(t, i)) == (Weekday(t) + i) % 7
  {
    assert AddDays(t, i) == (DayOf(t) + i) * SecondsPerDay + SecondOfDay(t);
    DayOfParts(DayOf(t) + i, SecondOfDay(t));
  }

  function Digit(n: int): (c: char)
    requires 0 <= n < 10
    ensures '0' <= c <= '9'
  {
    (('0' as int) + n) as char
  }

  function DigitValue(c: char): int
  {
    (c as int) - ('0' as int)
  }

  /** Two-digit zero-padded rendering, as moment's "HH" and "mm". */
  function TwoDigits(n: int): (s: string)
    requires 0 <= n < 100
    ensures |s| == 2 && '0' <= s[0] <= '9' && '0' <= s[1] <= '9'
    ensures DigitValue(s[0]) * 10 + DigitValue(s[1]) == n
  {
    [Digit(n / 10), Digit(n % 10)]
  }

  /**
   * time.format('HH:mm') for tick k: the hour and minute of the tick's
   * second of the day, zero-padded and separated by a colon.
   */
  function Render(k: Tick): (s: string)
    ensures |s| == 5 && s[2] == ':'
    ensures forall i :: i in {0, 1, 3, 4} ==> '0' <= s[i] <= '9'
    ensures DigitValue(s[0]) * 10 + DigitValue(s[1]) == (k * SlotSeconds) / 3600
    ensures DigitValue(s[3]) * 10 + DigitValue(s[4]) == (k * SlotSeconds) % 3600 / 60
  {
    TwoDigits(k * SlotSeconds / 3600) + ":" + TwoDigits(k * SlotSeconds % 3600 / 60)
  }

  /** Distinct ticks have distinct labels, so lists of labels and lists of ticks deduplicate alike. */
  lemma RenderInjective(a: Tick, b: Tick)
    ensures Render(a) == Render(b) <==> a == b
  {
    if Render(a) == Render(b) {
      var ha, ma := (a * SlotSeconds) / 3600, (a * SlotSeconds) % 3600 / 60;
      var hb, mb := (b * SlotSeconds) / 3600, (b * SlotSeconds) % 3600 / 60;
      assert ha == hb && ma == mb;
      assert a == 2 * ha + ma / 30;
      assert b == 2 * hb + mb / 30;
    }
  }

  /** Tick k is the half hour k/2 o'clock, on the hour for even k and at half past for odd k. */
  lemma RenderHalfHours(k: Tick)
    ensures Render(k) == TwoDigits(k / 2) + ":" + (if k % 2 == 0 then "00" else "30")
  {
    assert k * SlotSeconds / 3600 == k / 2;
    assert k * SlotSeconds % 3600 / 60 == (if k % 2 == 0 then 0 else 30);
    assert TwoDigits(0) == "00" && TwoDigits(30) == "30";
  }
}
