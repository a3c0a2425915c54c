/** What the once-a-day dispatcher promises, over every run, and when it cannot. */
module DispatcherResults {
  import opened Common
  import opened RedisStore
  import opened Dispatcher
  import opened DispatcherInvariant

  lemma {:induction false} RunKeepsInv(s: State, actions: seq<Action>)
    requires Inv(s) && Runs(s, actions)
    requires ResetsHold(s, actions) && StartsStayClose(s, actions)
    ensures Inv(Run(s, actions))
    decreases |actions|
  {
    if actions == [] {
    } else {
      StepKeepsInv(s, actions[0]);
      RunKeepsInv(Step(s, actions[0]), actions[1..]);
    }
  }

  /**
   * Over every interleaving of any number of workers, a slot gets at most one acknowledged
   * send, provided no Redis command fails after one and the slot's dispatches start within
   * 36 hours of the first. Attempts may last as long as they like.
   */
  lemma AtMostOneAcknowledgedSend(actions: seq<Action>, slot: Slot)
    requires Runs(Init, actions)
    requires ResetsHold(Init, actions) && StartsStayClose(Init, actions)
    ensures AckCount(Run(Init, actions).acks, slot) <= 1
  {
    RunKeepsInv(Init, actions);
    assert SlotInv(Run(Init, actions), slot);
  }

  /** A worker in the catch block deletes the very entry its own SET NX wrote, never another's. */
  lemma OnlyOwnClaimIsReleased(actions: seq<Action>, w: nat)
    requires Runs(Init, actions)
    requires ResetsHold(Init, actions) && StartsStayClose(Init, actions)
    requires
      var me := WorkerAt(Run(Init, actions), w);
      me.Busy? && me.phase == Releasing
    ensures
      var s := Run(Init, actions);
      var me := WorkerAt(s, w);
      && me.slot in s.owner && s.owner[me.slot] == w
      && IdemKey(me.slot) in s.store
      && s.store[IdemKey(me.slot)].expires == Some(me.claimedAt + CLAIM_TTL)
      && AckCount(s.acks, me.slot) == 0
  {
    RunKeepsInv(Init, actions);
    var s := Run(Init, actions);
    assert HolderInv(s, WorkerAt(s, w).slot, w) && SlotInv(s, WorkerAt(s, w).slot);
  }

  /** Once a send is acknowledged, every later start of that slot is a skip, whatever becomes of its reply. */
  lemma AcknowledgedSlotIsSkipped(actions: seq<Action>, w: nat, slot: Slot)
    requires Runs(Init, actions)
    requires ResetsHold(Init, actions) && StartsStayClose(Init, actions)
    requires AckCount(Run(Init, actions).acks, slot) == 1
    requires Enabled(Run(Init, actions), Start(w, slot)) && StartsClose(Run(Init, actions), Start(w, slot))
    ensures Step(Run(Init, actions), Start(w, slot)) == Run(Init, actions)
    ensures Step(Run(Init, actions), SlowStart(w, slot)) == Run(Init, actions)
  {
    RunKeepsInv(Init, actions);
    assert SlotInv(Run(Init, actions), slot);
  }

  // ------------------------------------------------------------------ both conditions are needed

  lemma RunsCons(s: State, a: Action, rest: seq<Action>)
    requires Enabled(s, a) && Runs(Step(s, a), rest)
    ensures Runs(s, [a] + rest) && Run(s, [a] + rest) == Run(Step(s, a), rest)
    ensures ResetsHold(s, [a] + rest) <==> ResetHolds(s, a) && ResetsHold(Step(s, a), rest)
    ensures StartsStayClose(s, [a] + rest) <==> StartsClose(s, a) && StartsStayClose(Step(s, a), rest)
  {
    assert ([a] + rest)[1..] == rest;
  }

  /** A slot whose key is gone is claimed and sent once more, by any idle worker. */
  lemma SendsAgain(s: State, w: nat, slot: Slot)
    requires WorkerAt(s, w).Idle? && !Live(s.store, s.now, IdemKey(slot))
    ensures
      var rest := [Start(w, slot)] + ([Send(w, Acked)] + []);
      && Runs(s, rest) && AckCount(Run(s, rest).acks, slot) == AckCount(s.acks, slot) + 1
      && ResetsHold(s, rest)
      && (StartsStayClose(s, rest) <==> StartsClose(s, Start(w, slot)))
  {
    var s1 := Step(s, Start(w, slot));
    AckCountSnoc(s.acks, Ack(slot, w), slot);
    RunsCons(s1, Send(w, Acked), []);
    RunsCons(s, Start(w, slot), [Send(w, Acked)] + []);
  }

  /** From the catch block a worker deletes the claim, counts the failure, starts over and is acknowledged. */
  lemma ReleasesAndSendsAgain(s: State, w: nat) returns (rest: seq<Action>)
    requires WorkerAt(s, w).Busy? && WorkerAt(s, w).phase == Releasing
    ensures
      var slot := WorkerAt(s, w).slot;
      && Runs(s, rest) && AckCount(Run(s, rest).acks, slot) == AckCount(s.acks, slot) + 1
      && ResetsHold(s, rest)
      && (StartsStayClose(s, rest) <==> StartsClose(s, Start(w, slot)))
  {
    var slot := WorkerAt(s, w).slot;
    var s1 := Step(s, Command(w, true));
    var s2 := Step(s1, Command(w, true));
    var s3 := Step(s2, Command(w, true));
    KeysAreDistinct(slot, slot, slot.kind);
    var again := [Start(w, slot)] + ([Send(w, Acked)] + []);
    SendsAgain(s3, w, slot);
    RunsCons(s2, Command(w, true), again);
    RunsCons(s1, Command(w, true), [Command(w, true)] + again);
    RunsCons(s, Command(w, true), [Command(w, true)] + ([Command(w, true)] + again));
    rest := [Command(w, true)] + ([Command(w, true)] + ([Command(w, true)] + again));
  }

  /**
   * The first condition cannot be dropped anywhere: whenever a Redis command fails after an
   * acknowledged send and the slot may still be dispatched, the run goes on, keeping both
   * conditions, to a second acknowledged send.
   */
  lemma FailedResetSendsTwice(s: State, a: Action) returns (rest: seq<Action>)
    requires Inv(s) && Enabled(s, a) && !ResetHolds(s, a)
    requires StartsClose(s, Start(a.worker, WorkerAt(s, a.worker).slot))
    ensures Runs(s, [a] + rest) && StartsStayClose(s, [a] + rest) && ResetsHold(Step(s, a), rest)
    ensures AckCount(Run(s, [a] + rest).acks, WorkerAt(s, a.worker).slot) == 2
  {
    var w, slot := a.worker, WorkerAt(s, a.worker).slot;
    assert HolderInv(s, slot, w);
    rest := ReleasesAndSendsAgain(Step(s, a), w);
    RunsCons(s, a, rest);
  }

  /**
   * Nor can the second: an acknowledged slot is claimed and acknowledged again by a start
   * exactly when its claim has expired, and it expires no sooner than 36 hours after the
   * first start.
   */
  lemma LateStartSendsTwiceIff(s: State, w: nat, slot: Slot)
    requires Inv(s) && WorkerAt(s, w).Idle? && AckCount(s.acks, slot) == 1
    ensures
      var again := [Start(w, slot)] + ([Send(w, Acked)] + []);
      Runs(s, again) && AckCount(Run(s, again).acks, slot) == 2 <==> !Live(s.store, s.now, IdemKey(slot))
    ensures !Live(s.store, s.now, IdemKey(slot)) ==> !StartsClose(s, Start(w, slot))
  {
    assert SlotInv(s, slot);
    var again := [Start(w, slot)] + ([Send(w, Acked)] + []);
    if !Live(s.store, s.now, IdemKey(slot)) {
      SendsAgain(s, w, slot);
    } else {
      assert again[1..][0] == Send(w, Acked);
    }
  }

  /** Any slot can come to that: claimed, acknowledged, and left alone for 36 hours. */
  lemma AcknowledgedClaimsExpire(slot: Slot) returns (actions: seq<Action>)
    ensures Runs(Init, actions) && ResetsHold(Init, actions) && StartsStayClose(Init, actions)
    ensures
      var s := Run(Init, actions);
      && Inv(s) && WorkerAt(s, 0).Idle? && AckCount(s.acks, slot) == 1
      && !Live(s.store, s.now, IdemKey(slot))
  {
    var s1 := Step(Init, Start(0, slot));
    var s2 := Step(s1, Send(0, Acked));
    var s3 := Step(s2, Command(0, true));
    AckCountSnoc([], Ack(slot, 0), slot);
    KeysAreDistinct(slot, slot, slot.kind);
    RunsCons(s3, Tick(CLAIM_TTL), []);
    RunsCons(s2, Command(0, true), [Tick(CLAIM_TTL)] + []);
    RunsCons(s1, Send(0, Acked), [Command(0, true)] + ([Tick(CLAIM_TTL)] + []));
    actions := [Start(0, slot)] + ([Send(0, Acked)] + ([Command(0, true)] + ([Tick(CLAIM_TTL)] + [])));
    RunsCons(Init, Start(0, slot), actions[1..]);
    RunKeepsInv(Init, actions);
  }

  // ------------------------------------------------------------------ when a day is blocked

  /** If no claim's reply is lost and no release fails, no slot is ever blocked. */
  lemma NoDayIsBlocked(actions: seq<Action>, slot: Slot)
    requires Runs(Init, actions)
    requires ResetsHold(Init, actions) && StartsStayClose(Init, actions) && ClaimsSafe(Init, actions)
    ensures !Blocked(Run(Init, actions), slot)
  {
    RunKeepsHeld(Init, actions, slot);
  }

  /** Anywhere, a claim that takes effect without its reply blocks a slot nobody was acknowledged for. */
  lemma LostClaimBlocks(s: State, w: nat, slot: Slot)
    requires Inv(s) && Enabled(s, SlowStart(w, slot)) && StartsClose(s, SlowStart(w, slot))
    requires !Live(s.store, s.now, IdemKey(slot)) && AckCount(s.acks, slot) == 0
    ensures Blocked(Step(s, SlowStart(w, slot)), slot)
  {
    var t := Step(s, SlowStart(w, slot));
    forall v ensures !Holds(WorkerAt(t, v), slot) { assert HolderInv(s, slot, v) && WorkerAt(t, v) == WorkerAt(s, v); }
  }

  /** So does a release that fails while the claim lives. */
  lemma FailedReleaseBlocks(s: State, w: nat)
    requires Inv(s) && WorkerAt(s, w).Busy? && WorkerAt(s, w).phase == Releasing
    requires s.now < WorkerAt(s, w).claimedAt + CLAIM_TTL
    ensures Blocked(Step(s, Command(w, false)), WorkerAt(s, w).slot)
  {
    var slot := WorkerAt(s, w).slot;
    assert HolderInv(s, slot, w) && SlotInv(s, slot);
    var t := Step(s, Command(w, false));
    forall v ensures !Holds(WorkerAt(t, v), slot) {
      assert HolderInv(s, slot, v) && (v != w ==> WorkerAt(t, v) == WorkerAt(s, v));
    }
  }

  /** A blocked slot stays blocked, whatever is tried, until its claim expires. */
  lemma BlockedUntilExpiry(s: State, a: Action, slot: Slot)
    requires Enabled(s, a) && Blocked(s, slot)
    ensures
      Blocked(Step(s, a), slot)
      || (a.Tick? && !Live(s.store, s.now + a.seconds, IdemKey(slot)))
  {
    match a
    case Start(w, x) => StartLeavesBlocked(s, w, x, slot);
    case SlowStart(w, x) => StartLeavesBlocked(s, w, x, slot);
    case Send(w, reply) => SendLeavesBlocked(s, w, reply, slot);
    case Command(w, ok) => CommandLeavesBlocked(s, w, ok, ok, slot);
    case SlowCommand(w) => CommandLeavesBlocked(s, w, true, false, slot);
    case _ =>
      var t := Step(s, a);
      forall v ensures !Holds(WorkerAt(t, v), slot) { assert !Holds(WorkerAt(s, v), slot); }
  }
}
