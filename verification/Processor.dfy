/**
 * The run date of apps/assistant/src/proactive/proactive.processor.ts, read off the wall clock
 * some time before the dispatch.
 */
module Processor {
  import opened RedisStore
  import opened Dispatcher
  import opened DispatcherInvariant
  import opened DispatcherResults
  import LocalMidnight

  const HALF_DAY := 43_200_000 // milliseconds

  /** How the date is written; `delay` bounds the time from reading the clock to SET NX. */
  datatype Clock = Clock(zone: LocalMidnight.Zone, format: int -> string, delay: nat, spread: nat)

  ghost predicate Reasonable(clock: Clock) {
    && clock.delay + clock.spread <= HALF_DAY
    && (forall t, u :: clock.zone(t) - clock.zone(u) <= clock.spread)
    && (forall d, e :: clock.format(d) == clock.format(e) ==> d == e)
  }

  /** `runDate` is what the clock showed at some instant at most `delay` before `now` (seconds). */
  ghost predicate Dated(clock: Clock, runDate: string, now: int) {
    exists t :: DatedAt(clock, runDate, now, t)
  }

  ghost predicate DatedAt(clock: Clock, runDate: string, now: int, t: int) {
    now * 1000 - clock.delay <= t <= now * 1000 && runDate == clock.format(LocalMidnight.LocalDate(clock.zone, t))
  }

  /** A dispatch whose SET NX reaches Redis. */
  predicate Starts(a: Action) { a.Start? || a.SlowStart? }

  /** Every dispatch of the run is of the day its job read off the clock. */
  ghost predicate FromClock(clock: Clock, s: State, actions: seq<Action>)
    requires Runs(s, actions)
    decreases |actions|
  {
    actions == [] ||
    ((Starts(actions[0]) ==> Dated(clock, actions[0].slot.runDate, s.now))
     && FromClock(clock, Step(s, actions[0]), actions[1..]))
  }

  ghost predicate FirstStartsDated(clock: Clock, s: State) {
    forall slot :: slot in s.firstStart ==> Dated(clock, slot.runDate, s.firstStart[slot])
  }

  /** Two dispatches of one date are less than 36 hours apart. */
  lemma OneDateIsClose(clock: Clock, runDate: string, now: int, later: int)
    requires Reasonable(clock) && Dated(clock, runDate, now) && Dated(clock, runDate, later)
    ensures later < now + CLAIM_TTL
  {
    var t :| DatedAt(clock, runDate, now, t);
    var u :| DatedAt(clock, runDate, later, u);
    assert clock.zone(t) - clock.zone(u) <= clock.spread;
  }

  lemma StepKeepsDates(clock: Clock, s: State, a: Action)
    requires Reasonable(clock) && FirstStartsDated(clock, s) && Enabled(s, a)
    requires Starts(a) ==> Dated(clock, a.slot.runDate, s.now)
    ensures StartsClose(s, a) && FirstStartsDated(clock, Step(s, a))
  {
    if Starts(a) && a.slot in s.firstStart {
      OneDateIsClose(clock, a.slot.runDate, s.firstStart[a.slot], s.now);
    }
  }

  lemma {:induction false} ClockKeepsStartsClose(clock: Clock, s: State, actions: seq<Action>)
    requires Reasonable(clock) && Runs(s, actions)
    requires FromClock(clock, s, actions) && FirstStartsDated(clock, s)
    ensures StartsStayClose(s, actions)
    decreases |actions|
  {
    if actions == [] {
    } else {
      StepKeepsDates(clock, s, actions[0]);
      ClockKeepsStartsClose(clock, Step(s, actions[0]), actions[1..]);
    }
  }

  /**
   * The daily message: when every job dates itself by the clock and no Redis command fails
   * after an acknowledged send, each kind is acknowledged at most once per local date.
   */
  lemma DailyMessageAtMostOnce(clock: Clock, actions: seq<Action>, slot: Slot)
    requires Reasonable(clock) && Runs(Init, actions)
    requires FromClock(clock, Init, actions) && ResetsHold(Init, actions)
    ensures AckCount(Run(Init, actions).acks, slot) <= 1
  {
    ClockKeepsStartsClose(clock, Init, actions);
    AtMostOneAcknowledgedSend(actions, slot);
  }

  // ------------------------------------------------------------------ the bound is exact

  /** A zone that never changes, and dates that are told apart. */
  ghost predicate Fixed(clock: Clock, offset: int) {
    && offset % LocalMidnight.SECOND == 0 && clock.spread == 0
    && (forall t :: clock.zone(t) == offset)
    && (forall d, e :: clock.format(d) == clock.format(e) ==> d == e)
  }

  /** A run from `s` whose dispatches are dated by the clock and whose resets hold. */
  ghost predicate GoodRun(clock: Clock, s: State, actions: seq<Action>) {
    Runs(s, actions) && FromClock(clock, s, actions) && ResetsHold(s, actions)
  }

  lemma GoodRunCons(clock: Clock, s: State, a: Action, rest: seq<Action>)
    requires Enabled(s, a) && ResetHolds(s, a) && (Starts(a) ==> Dated(clock, a.slot.runDate, s.now))
    requires GoodRun(clock, Step(s, a), rest)
    ensures GoodRun(clock, s, [a] + rest) && Run(s, [a] + rest) == Run(Step(s, a), rest)
  {
    RunsCons(s, a, rest);
    assert ([a] + rest)[1..] == rest;
  }

  /** The state after a job starts on `slot`, is acknowledged at once, and its reset is answered. */
  function AfterSend(s: State, slot: Slot): State
    requires WorkerAt(s, 0).Idle? && !Live(s.store, s.now, IdemKey(slot))
  {
    Step(Step(Step(s, Start(0, slot)), Send(0, Acked)), Command(0, true))
  }

  lemma SendIsGood(clock: Clock, s: State, slot: Slot, rest: seq<Action>)
    requires WorkerAt(s, 0).Idle? && !Live(s.store, s.now, IdemKey(slot)) && Dated(clock, slot.runDate, s.now)
    requires GoodRun(clock, AfterSend(s, slot), rest)
    ensures
      var all := [Start(0, slot)] + ([Send(0, Acked)] + ([Command(0, true)] + rest));
      GoodRun(clock, s, all) && Run(s, all) == Run(AfterSend(s, slot), rest)
  {
    var s1 := Step(s, Start(0, slot));
    var s2 := Step(s1, Send(0, Acked));
    GoodRunCons(clock, s2, Command(0, true), rest);
    GoodRunCons(clock, s1, Send(0, Acked), [Command(0, true)] + rest);
    GoodRunCons(clock, s, Start(0, slot), [Send(0, Acked)] + ([Command(0, true)] + rest));
  }

  lemma SendAcknowledges(s: State, slot: Slot)
    requires WorkerAt(s, 0).Idle? && !Live(s.store, s.now, IdemKey(slot))
    ensures
      var t := AfterSend(s, slot);
      && t.now == s.now && WorkerAt(t, 0).Idle? && !Live(t.store, s.now + CLAIM_TTL, IdemKey(slot))
      && AckCount(t.acks, slot) == AckCount(s.acks, slot) + 1
  {
    AckCountSnoc(s.acks, Ack(slot, 0), slot);
    KeysAreDistinct(slot, slot, slot.kind);
  }

  /** A local midnight of the zone, in seconds from the start of the clock, and its date. */
  lemma SomeMidnight(offset: int) returns (second: nat, date: int)
    requires offset % LocalMidnight.SECOND == 0
    ensures second * 1000 + offset == date * LocalMidnight.DAY
  {
    var k := offset / LocalMidnight.SECOND;
    assert offset == 1000 * k;
    date := if offset > 0 then offset else 0;
    second := date * 86_400 - k;
  }

  /** Read at midnight and at the last millisecond of the day, a date can reach Redis 36 hours apart. */
  lemma DatedFarApart(clock: Clock, offset: int, second: int, date: int)
    requires Fixed(clock, offset) && clock.delay > HALF_DAY
    requires second * 1000 + offset == date * LocalMidnight.DAY
    ensures Dated(clock, clock.format(date), second) && Dated(clock, clock.format(date), second + CLAIM_TTL)
  {
    var dawn := second * 1000;
    var dusk := dawn + LocalMidnight.DAY - 1;
    assert LocalMidnight.LocalDate(clock.zone, dawn) == date;
    assert LocalMidnight.LocalDate(clock.zone, dusk) == date;
    assert DatedAt(clock, clock.format(date), second, dawn);
    assert DatedAt(clock, clock.format(date), second + CLAIM_TTL, dusk);
  }

  /** With a delay of more than half a day, a slot is sent twice. */
  lemma SlowJobSendsTwice(clock: Clock, offset: int) returns (actions: seq<Action>, slot: Slot)
    requires Fixed(clock, offset) && clock.delay > HALF_DAY
    ensures GoodRun(clock, Init, actions) && AckCount(Run(Init, actions).acks, slot) == 2
  {
    var second, date := SomeMidnight(offset);
    DatedFarApart(clock, offset, second, date);
    slot := Slot(Digest, clock.format(date));
    var s1 := Step(Init, Tick(second));
    actions := SendsTwice(clock, s1, slot);
    GoodRunCons(clock, Init, Tick(second), actions);
    actions := [Tick(second)] + actions;
  }

  /** One send, acknowledged, when the slot's claim has lapsed after the time a claim lasts. */
  lemma SendsOnceMore(clock: Clock, s: State, slot: Slot) returns (actions: seq<Action>)
    requires WorkerAt(s, 0).Idle? && !Live(s.store, s.now + CLAIM_TTL, IdemKey(slot))
    requires Dated(clock, slot.runDate, s.now + CLAIM_TTL)
    ensures GoodRun(clock, s, actions) && AckCount(Run(s, actions).acks, slot) == AckCount(s.acks, slot) + 1
  {
    var t := Step(s, Tick(CLAIM_TTL));
    SendAcknowledges(t, slot);
    SendIsGood(clock, t, slot, []);
    actions := [Start(0, slot)] + ([Send(0, Acked)] + ([Command(0, true)] + []));
    GoodRunCons(clock, s, Tick(CLAIM_TTL), actions);
    actions := [Tick(CLAIM_TTL)] + actions;
  }

  lemma SendsTwice(clock: Clock, s: State, slot: Slot) returns (actions: seq<Action>)
    requires WorkerAt(s, 0).Idle? && !Live(s.store, s.now, IdemKey(slot)) && s.acks == []
    requires Dated(clock, slot.runDate, s.now) && Dated(clock, slot.runDate, s.now + CLAIM_TTL)
    ensures GoodRun(clock, s, actions) && AckCount(Run(s, actions).acks, slot) == 2
  {
    SendAcknowledges(s, slot);
    var more := SendsOnceMore(clock, AfterSend(s, slot), slot);
    SendIsGood(clock, s, slot, more);
    actions := [Start(0, slot)] + ([Send(0, Acked)] + ([Command(0, true)] + more));
  }

  /**
   * In a zone that never changes, half a day from reading the date to SET NX is the exact bound:
   * every run dated by the clock whose resets hold sends each slot at most once, if and only if
   * no job may take longer than that.
   */
  lemma HalfADayIsExact(clock: Clock, offset: int)
    requires Fixed(clock, offset)
    ensures
      (forall actions, slot :: GoodRun(clock, Init, actions) ==> AckCount(Run(Init, actions).acks, slot) <= 1)
      <==> clock.delay <= HALF_DAY
  {
    if clock.delay <= HALF_DAY {
      forall actions, slot | GoodRun(clock, Init, actions) ensures AckCount(Run(Init, actions).acks, slot) <= 1 {
        DailyMessageAtMostOnce(clock, actions, slot);
      }
    } else {
      var actions, slot := SlowJobSendsTwice(clock, offset);
      assert GoodRun(clock, Init, actions);
    }
  }
}
