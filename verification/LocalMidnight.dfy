/**
 * `zonedStartOfDay` and `zonedDayBounds` of apps/assistant/src/proactive/muneral-reader.service.ts,
 * over an arbitrary zone. All instants and offsets are in milliseconds.
 */
module LocalMidnight {
  const SECOND := 1000
  const HOUR := 3_600_000
  const DAY := 86_400_000

  /** The zone's offset from UTC at each instant; what a wall clock shows is `t + offset(t)`. */
  type Zone = int -> int

  function Local(zone: Zone, t: int): int { t + zone(t) }

  /** The local calendar date at an instant, as days since the epoch. */
  function LocalDate(zone: Zone, t: int): int { Local(zone, t) / DAY }

  /** `zoneOffsetMs`: the wall clock is read in whole seconds. */
  function ZoneOffsetMs(zone: Zone, at: int): int {
    Local(zone, at) / SECOND * SECOND - at
  }

  /** Midnight of the date, read as if the zone were UTC. */
  function Naive(date: int): int { date * DAY }

  function ZonedStartOfDay(zone: Zone, date: int): int {
    var firstGuess := Naive(date) - ZoneOffsetMs(zone, Naive(date));
    Naive(date) - ZoneOffsetMs(zone, firstGuess)
  }

  /** The half-open window of a day. */
  datatype Bounds = Bounds(since: int, before: int)

  function ZonedDayBounds(zone: Zone, date: int): Bounds {
    Bounds(ZonedStartOfDay(zone, date), ZonedStartOfDay(zone, date + 1))
  }

  // ------------------------------------------------------------------ what zones do

  /** Offsets are whole seconds of at most a day. */
  ghost predicate Sane(zone: Zone) {
    forall t :: zone(t) % SECOND == 0 && -DAY <= zone(t) <= DAY
  }

  ghost predicate ChangesOnceAt(zone: Zone, from: int, to: int, at: int, a: int, b: int) {
    forall t :: from <= t <= to ==> zone(t) == if t < at then a else b
  }

  ghost predicate ChangesAtMostOnce(zone: Zone, from: int, to: int) {
    exists at, a, b :: ChangesOnceAt(zone, from, to, at, a, b)
  }

  ghost predicate IsMidnight(zone: Zone, date: int, t: int) {
    Local(zone, t) == Naive(date)
  }

  ghost predicate HasMidnight(zone: Zone, date: int) {
    exists t :: IsMidnight(zone, date, t)
  }

  ghost predicate HasOneMidnight(zone: Zone, date: int) {
    HasMidnight(zone, date) && forall t, u :: IsMidnight(zone, date, t) && IsMidnight(zone, date, u) ==> t == u
  }

  // ------------------------------------------------------------------ the two guesses

  /** On whole-second instants the formatted offset is the offset, so this is the whole computation. */
  lemma TwoGuesses(zone: Zone, date: int)
    requires Sane(zone)
    ensures ZonedStartOfDay(zone, date) == Naive(date) - zone(Naive(date) - zone(Naive(date)))
  {
    var naive := Naive(date);
    assert naive == SECOND * (date * 86_400);
    WholeSecond(zone, naive);
    WholeSecond(zone, naive - zone(naive));
  }

  lemma WholeSecond(zone: Zone, t: int)
    requires Sane(zone) && t % SECOND == 0
    ensures ZoneOffsetMs(zone, t) == zone(t)
    ensures (t - zone(t)) % SECOND == 0
  {
    var k, m := t / SECOND, zone(t) / SECOND;
    assert t == SECOND * k && zone(t) == SECOND * m;
    assert t + zone(t) == SECOND * (k + m) && t - zone(t) == SECOND * (k - m);
  }

  /** The computed start is a local midnight whenever the date has one. */
  lemma MidnightIsFound(zone: Zone, date: int)
    requires Sane(zone) && ChangesAtMostOnce(zone, Naive(date) - DAY, Naive(date) + DAY)
    ensures IsMidnight(zone, date, ZonedStartOfDay(zone, date)) <==> HasMidnight(zone, date)
  {
    var naive := Naive(date);
    TwoGuesses(zone, date);
    var at, a, b :| ChangesOnceAt(zone, naive - DAY, naive + DAY, at, a, b);
    if HasMidnight(zone, date) {
      var t :| IsMidnight(zone, date, t);
      assert naive - DAY <= t <= naive + DAY;
      OneStep(zone, naive, at, a, b, t);
    }
  }

  lemma OneStep(zone: Zone, naive: int, at: int, a: int, b: int, t: int)
    requires Sane(zone) && ChangesOnceAt(zone, naive - DAY, naive + DAY, at, a, b)
    requires naive - DAY <= t <= naive + DAY && Local(zone, t) == naive
    ensures Local(zone, naive - zone(naive - zone(naive))) == naive
  {
    var guess := naive - zone(naive);
    var start := naive - zone(guess);
    assert naive - DAY <= guess <= naive + DAY;
    assert naive - DAY <= start <= naive + DAY;
  }

  // ------------------------------------------------------------------ day windows

  /**
   * Consecutive windows share their edge, and when both edges are unambiguous midnights a
   * window holds exactly the instants whose local date is that date.
   */
  lemma WindowIsTheLocalDay(zone: Zone, date: int)
    requires Sane(zone) && ChangesAtMostOnce(zone, Naive(date) - DAY, Naive(date + 1) + DAY)
    requires HasOneMidnight(zone, date) && HasOneMidnight(zone, date + 1)
    ensures ZonedDayBounds(zone, date).before == ZonedDayBounds(zone, date + 1).since
    ensures forall t ::
      ZonedDayBounds(zone, date).since <= t < ZonedDayBounds(zone, date).before <==> LocalDate(zone, t) == date
  {
    var lo, hi := Naive(date) - DAY, Naive(date + 1) + DAY;
    var at, a, b :| ChangesOnceAt(zone, lo, hi, at, a, b);
    assert ChangesOnceAt(zone, Naive(date) - DAY, Naive(date) + DAY, at, a, b);
    assert ChangesOnceAt(zone, Naive(date + 1) - DAY, Naive(date + 1) + DAY, at, a, b);
    MidnightIsFound(zone, date);
    MidnightIsFound(zone, date + 1);
    var w := ZonedDayBounds(zone, date);
    forall t ensures w.since <= t < w.before <==> LocalDate(zone, t) == date {
      MidnightSplits(zone, date, lo, hi, at, a, b, w.since, t);
      MidnightSplits(zone, date + 1, lo, hi, at, a, b, w.before, t);
      DateBetween(Local(zone, t), date);
    }
  }

  lemma DateBetween(local: int, date: int)
    ensures local / DAY == date <==> date * DAY <= local < (date + 1) * DAY
  {
  }

  /** Clocks before an unambiguous midnight read earlier and clocks after it read later. */
  lemma MidnightSplits(zone: Zone, date: int, lo: int, hi: int, at: int, a: int, b: int, m: int, t: int)
    requires Sane(zone) && ChangesOnceAt(zone, lo, hi, at, a, b)
    requires lo <= Naive(date) - DAY && Naive(date) + DAY <= hi
    requires IsMidnight(zone, date, m) && HasOneMidnight(zone, date)
    ensures t < m <==> Local(zone, t) < Naive(date)
  {
    var naive := Naive(date);
    assert naive - DAY <= m <= naive + DAY;
    if lo <= t <= hi {
      var m', m'' := naive - a, naive - b;
      assert -DAY <= zone(lo) <= DAY && -DAY <= zone(hi) <= DAY;
      if lo <= m' <= hi && m' < at { assert IsMidnight(zone, date, m'); }
      if lo <= m'' <= hi && m'' >= at { assert IsMidnight(zone, date, m''); }
    }
  }

  // ------------------------------------------------------------------ exactly when a start is right

  /** `m` separates the instants whose local date is earlier than `date` from the rest. */
  ghost predicate Splits(zone: Zone, date: int, m: int) {
    forall t :: m <= t <==> Naive(date) <= Local(zone, t)
  }

  /**
   * A change at `at` from offset `a` to `b` makes the wall clock repeat (b < a) or skip (a < b)
   * the readings from `at + min(a, b)` up to `at + max(a, b)`. A midnight outside them is safe;
   * one inside is safe only at their very beginning, and then only on one side of the change.
   */
  predicate CleanStart(naive: int, at: int, a: int, b: int) {
    if a >= b
    then !(at + b <= naive < at + a) || (naive == at + b && naive < at)
    else !(at + a <= naive < at + b) || (naive == at + a && at <= naive)
  }

  /** A clean midnight's start separates; a midnight away from the change is clean. */
  lemma CleanStartSplits(zone: Zone, date: int, lo: int, hi: int, at: int, a: int, b: int)
    requires Sane(zone) && ChangesOnceAt(zone, lo, hi, at, a, b) && lo < at <= hi
    requires lo <= Naive(date) - DAY && Naive(date) + DAY <= hi
    requires CleanStart(Naive(date), at, a, b)
    ensures Splits(zone, date, ZonedStartOfDay(zone, date))
  {
    var naive := Naive(date);
    TwoGuesses(zone, date);
    assert zone(at - 1) == a && zone(at) == b;
    assert ChangesOnceAt(zone, naive - DAY, naive + DAY, at, a, b);
    var guess := naive - zone(naive);
    var start := naive - zone(guess);
    assert naive - DAY <= guess <= naive + DAY && naive - DAY <= start <= naive + DAY;
    forall t ensures start <= t <==> naive <= Local(zone, t) {
      assert -DAY <= zone(t) <= DAY;
    }
  }

  lemma StartIsRightIff(zone: Zone, date: int, at: int, a: int, b: int)
    requires Sane(zone) && ChangesOnceAt(zone, Naive(date) - DAY, Naive(date) + DAY, at, a, b)
    requires Naive(date) - DAY < at <= Naive(date) + DAY
    ensures Splits(zone, date, ZonedStartOfDay(zone, date)) <==> CleanStart(Naive(date), at, a, b)
  {
    var naive := Naive(date);
    TwoGuesses(zone, date);
    assert zone(at - 1) == a && zone(at) == b;
    var guess := naive - zone(naive);
    var start := naive - zone(guess);
    assert naive - DAY <= guess <= naive + DAY && naive - DAY <= start <= naive + DAY;
    if CleanStart(naive, at, a, b) {
      CleanStartSplits(zone, date, naive - DAY, naive + DAY, at, a, b);
    } else if a >= b {
      DirtyOverlap(zone, naive, at, a, b, start);
    } else {
      DirtyGap(zone, naive, at, a, b, start);
    }
  }

  lemma DirtyOverlap(zone: Zone, naive: int, at: int, a: int, b: int, start: int)
    requires Sane(zone) && ChangesOnceAt(zone, naive - DAY, naive + DAY, at, a, b)
    requires zone(at - 1) == a && zone(at) == b && naive - DAY < at <= naive + DAY
    requires b < a && at + b <= naive < at + a && !(naive == at + b && naive < at)
    requires start == if naive < at then naive - a else naive - b
    ensures exists t :: !(start <= t <==> naive <= Local(zone, t))
  {
    var t := if naive < at then at else at - 1;
    assert !(start <= t <==> naive <= Local(zone, t));
  }

  lemma DirtyGap(zone: Zone, naive: int, at: int, a: int, b: int, start: int)
    requires Sane(zone) && ChangesOnceAt(zone, naive - DAY, naive + DAY, at, a, b)
    requires zone(at - 1) == a && zone(at) == b && naive - DAY < at <= naive + DAY
    requires a < b && at + a <= naive < at + b && !(naive == at + a && at <= naive)
    requires start == if naive < at then naive - b else naive - a
    ensures exists t :: !(start <= t <==> naive <= Local(zone, t))
  {
    var t := if naive < at then at - 1 else at;
    assert !(start <= t <==> naive <= Local(zone, t));
  }

  /**
   * In any zone, however often it changes: the second guess's offset `o` is that of the instant
   * it points to. Then and only then is that instant, the start, a midnight.
   */
  lemma StartIsMidnightIff(zone: Zone, date: int)
    requires Sane(zone)
    ensures
      var o := zone(Naive(date) - zone(Naive(date)));
      IsMidnight(zone, date, ZonedStartOfDay(zone, date)) <==> zone(Naive(date) - o) == o
  {
    TwoGuesses(zone, date);
  }

  // ------------------------------------------------------------------ exactly when a window is right

  /** Offsets are whole seconds of less than a day, so no whole date is skipped or repeated. */
  ghost predicate Mild(zone: Zone) {
    forall t :: zone(t) % SECOND == 0 && -DAY < zone(t) < DAY
  }

  /** Where the two starts of a window lie. */
  lemma Starts(zone: Zone, date: int, lo: int, hi: int, at: int, a: int, b: int)
    requires Mild(zone) && ChangesOnceAt(zone, lo, hi, at, a, b)
    requires lo <= Naive(date) - DAY && Naive(date) + DAY <= hi
    ensures
      var n := Naive(date);
      ZonedStartOfDay(zone, date) == n - if n - (if n < at then a else b) < at then a else b
  {
    TwoGuesses(zone, date);
    assert zone(Naive(date)) == if Naive(date) < at then a else b;
  }

  /** An unclean first midnight: the change or the instant before it is on the wrong side of the window's start. */
  lemma UncleanFirst(zone: Zone, date: int, lo: int, hi: int, at: int, a: int, b: int) returns (t: int)
    requires Mild(zone) && ChangesOnceAt(zone, lo, hi, at, a, b) && lo < at <= hi
    requires lo <= Naive(date) - DAY && Naive(date + 1) + DAY <= hi
    requires !CleanStart(Naive(date), at, a, b)
    ensures !(ZonedDayBounds(zone, date).since <= t < ZonedDayBounds(zone, date).before <==> LocalDate(zone, t) == date)
  {
    var n := Naive(date);
    assert zone(at - 1) == a && zone(at) == b;
    Starts(zone, date, lo, hi, at, a, b);
    Starts(zone, date + 1, lo, hi, at, a, b);
    t := if (a >= b) == (n < at) then at else at - 1;
    DateBetween(Local(zone, t), date);
  }

  lemma UncleanSecond(zone: Zone, date: int, lo: int, hi: int, at: int, a: int, b: int) returns (t: int)
    requires Mild(zone) && ChangesOnceAt(zone, lo, hi, at, a, b) && lo < at <= hi
    requires lo <= Naive(date) - DAY && Naive(date + 1) + DAY <= hi
    requires !CleanStart(Naive(date + 1), at, a, b)
    ensures !(ZonedDayBounds(zone, date).since <= t < ZonedDayBounds(zone, date).before <==> LocalDate(zone, t) == date)
  {
    var n := Naive(date + 1);
    assert zone(at - 1) == a && zone(at) == b;
    Starts(zone, date, lo, hi, at, a, b);
    Starts(zone, date + 1, lo, hi, at, a, b);
    t := if (a >= b) == (n < at) then at else at - 1;
    DateBetween(Local(zone, t), date);
  }

  /** With one change near, a window holds exactly the instants of its date exactly when both its midnights are clean. */
  lemma WindowIsRightIff(zone: Zone, date: int, at: int, a: int, b: int)
    requires Mild(zone)
    requires ChangesOnceAt(zone, Naive(date) - DAY, Naive(date + 1) + DAY, at, a, b)
    requires Naive(date) - DAY < at <= Naive(date + 1) + DAY
    ensures
      (forall t :: ZonedDayBounds(zone, date).since <= t < ZonedDayBounds(zone, date).before <==> LocalDate(zone, t) == date)
      <==> CleanStart(Naive(date), at, a, b) && CleanStart(Naive(date + 1), at, a, b)
  {
    var lo, hi := Naive(date) - DAY, Naive(date + 1) + DAY;
    if !CleanStart(Naive(date), at, a, b) {
      var t := UncleanFirst(zone, date, lo, hi, at, a, b);
    } else if !CleanStart(Naive(date + 1), at, a, b) {
      var t := UncleanSecond(zone, date, lo, hi, at, a, b);
    } else {
      CleanStartSplits(zone, date, lo, hi, at, a, b);
      CleanStartSplits(zone, date + 1, lo, hi, at, a, b);
      forall t ensures ZonedDayBounds(zone, date).since <= t < ZonedDayBounds(zone, date).before <==> LocalDate(zone, t) == date {
        DateBetween(Local(zone, t), date);
      }
    }
  }

  // ------------------------------------------------------------------ the conditions are needed

  /** Ten hours ahead, then one, then three: two changes within nine hours. */
  function TwoChanges(): Zone {
    (t: int) => if t < -5 * HOUR then 10 * HOUR else if t < -2 * HOUR then HOUR else 3 * HOUR
  }

  /** With two changes near the date its midnight can be missed. */
  lemma SecondChangeHidesMidnight()
    ensures Sane(TwoChanges()) && HasMidnight(TwoChanges(), 0)
    ensures !IsMidnight(TwoChanges(), 0, ZonedStartOfDay(TwoChanges(), 0))
  {
    TwoGuesses(TwoChanges(), 0);
    assert IsMidnight(TwoChanges(), 0, -10 * HOUR);
  }

  /** An hour back at 00:30 local time, so midnight strikes twice. */
  function FallBack(): Zone {
    (t: int) => if t < -HOUR / 2 then HOUR else 0
  }

  /** When midnight strikes twice the window can leave out instants of its date. */
  lemma DoubleMidnightLosesInstants()
    ensures Sane(FallBack()) && ChangesAtMostOnce(FallBack(), -DAY, 2 * DAY)
    ensures LocalDate(FallBack(), -HOUR) == 0
    ensures -HOUR < ZonedDayBounds(FallBack(), 0).since
  {
    assert ChangesOnceAt(FallBack(), -DAY, 2 * DAY, -HOUR / 2, HOUR, 0);
    TwoGuesses(FallBack(), 0);
  }
}
