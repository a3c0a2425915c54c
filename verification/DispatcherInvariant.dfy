/**
 * What every step of the dispatcher keeps: that a worker which still holds a claim wrote the
 * live entry itself, that a slot has at most one acknowledgement and is then covered by a claim
 * for 36 hours from its first start, that a claim is held by its worker until it is released,
 * and that a blocked slot stays blocked. Each is shown for one step, action by action; whole runs
 * follow by induction.
 */
module DispatcherInvariant {
  import opened Common
  import opened RedisStore
  import opened Dispatcher

  /** A worker that still holds the claim it set. */
  predicate Holds(w: Worker, slot: Slot) {
    w.Busy? && w.slot == slot && w.phase !in {Counting, Expiring}
  }

  ghost predicate HolderInv(s: State, slot: Slot, w: nat) {
    Holds(WorkerAt(s, w), slot) ==>
      && slot in s.owner && s.owner[slot] == w
      && slot in s.firstStart && s.firstStart[slot] <= WorkerAt(s, w).claimedAt
      && IdemKey(slot) in s.store
      && s.store[IdemKey(slot)].expires == Some(WorkerAt(s, w).claimedAt + CLAIM_TTL)
      && (WorkerAt(s, w).phase == Resetting <==> AckCount(s.acks, slot) == 1)
  }

  ghost predicate SlotInv(s: State, slot: Slot) {
    && AckCount(s.acks, slot) <= 1
    && (AckCount(s.acks, slot) == 1 ==>
          && slot in s.firstStart
          && IdemKey(slot) in s.store
          && s.store[IdemKey(slot)].expires.Some?
          && s.firstStart[slot] + CLAIM_TTL <= s.store[IdemKey(slot)].expires.value)
    && (slot in s.firstStart ==> s.firstStart[slot] <= s.now)
  }

  ghost predicate Inv(s: State) {
    && (forall slot :: SlotInv(s, slot))
    && (forall slot, w :: HolderInv(s, slot, w))
  }

  lemma StartKeepsSlot(s: State, w: nat, slot: Slot, other: Slot)
    requires Inv(s) && Enabled(s, Start(w, slot)) && StartsClose(s, Start(w, slot))
    ensures SlotInv(StartStep(s, w, slot), other)
  {
    KeysAreDistinct(slot, other, Briefing);
    assert SlotInv(s, other);
  }

  lemma StartKeepsHolder(s: State, w: nat, slot: Slot, other: Slot, v: nat)
    requires Inv(s) && Enabled(s, Start(w, slot)) && StartsClose(s, Start(w, slot))
    ensures HolderInv(StartStep(s, w, slot), other, v)
  {
    KeysAreDistinct(slot, other, Briefing);
    assert SlotInv(s, other) && HolderInv(s, other, v) && HolderInv(s, other, w);
  }

  /** A claim whose reply is lost belongs to nobody; while a worker holds the slot it changes nothing. */
  lemma SlowStartKeeps(s: State, w: nat, slot: Slot, other: Slot, v: nat)
    requires Inv(s) && Enabled(s, SlowStart(w, slot)) && StartsClose(s, SlowStart(w, slot))
    ensures SlotInv(SetNx(s, w, slot), other) && HolderInv(SetNx(s, w, slot), other, v)
  {
    KeysAreDistinct(slot, other, Briefing);
    assert SlotInv(s, other) && HolderInv(s, other, v);
  }

  /** All a send changes is the phase of its worker and, when it is acknowledged, the acknowledgements. */
  lemma SendFrame(s: State, w: nat, reply: Reply)
    requires Enabled(s, Send(w, reply))
    ensures
      var t, me := SendStep(s, w, reply), WorkerAt(s, w);
      && t.store == s.store && t.now == s.now && t.firstStart == s.firstStart && t.owner == s.owner
      && t.acks == (if reply == Acked then s.acks + [Ack(me.slot, w)] else s.acks)
      && WorkerAt(t, w).Busy? && WorkerAt(t, w) == me.(phase := WorkerAt(t, w).phase)
      && (WorkerAt(t, w).phase == Resetting <==> reply == Acked)
      && WorkerAt(t, w).phase !in {Counting, Expiring}
      && forall v :: v != w ==> WorkerAt(t, v) == WorkerAt(s, v)
  {
  }

  /** Before an acknowledgement of its own, a sending worker's slot has none. */
  lemma SendCounts(s: State, w: nat, reply: Reply, other: Slot)
    requires Inv(s) && Enabled(s, Send(w, reply))
    ensures
      var slot, t := WorkerAt(s, w).slot, SendStep(s, w, reply);
      && AckCount(s.acks, slot) == 0
      && AckCount(t.acks, other) == AckCount(s.acks, other) + if reply == Acked && other == slot then 1 else 0
  {
    var slot := WorkerAt(s, w).slot;
    assert SlotInv(s, slot) && HolderInv(s, slot, w);
    AckCountSnoc(s.acks, Ack(slot, w), other);
  }

  lemma SendKeepsSlot(s: State, w: nat, reply: Reply, other: Slot)
    requires Inv(s) && Enabled(s, Send(w, reply))
    ensures SlotInv(SendStep(s, w, reply), other)
  {
    SendFrame(s, w, reply);
    SendCounts(s, w, reply, other);
    assert SlotInv(s, other) && HolderInv(s, other, w);
  }

  lemma SendKeepsHolder(s: State, w: nat, reply: Reply, other: Slot, v: nat)
    requires Inv(s) && Enabled(s, Send(w, reply))
    ensures HolderInv(SendStep(s, w, reply), other, v)
  {
    SendFrame(s, w, reply);
    SendCounts(s, w, reply, other);
    assert HolderInv(s, other, v) && HolderInv(s, other, w);
    HolderAfterSend(s, SendStep(s, w, reply), w, reply == Acked, other, v);
  }

  lemma HolderAfterSend(s: State, t: State, w: nat, acked: bool, other: Slot, v: nat)
    requires WorkerAt(s, w).Busy? && WorkerAt(s, w).phase in {SendingMarkdown, SendingPlain}
    requires HolderInv(s, other, v) && HolderInv(s, other, w) && AckCount(s.acks, WorkerAt(s, w).slot) == 0
    requires t.store == s.store && t.firstStart == s.firstStart && t.owner == s.owner
    requires WorkerAt(t, w).Busy? && WorkerAt(t, w) == WorkerAt(s, w).(phase := WorkerAt(t, w).phase)
    requires (WorkerAt(t, w).phase == Resetting <==> acked) && (v != w ==> WorkerAt(t, v) == WorkerAt(s, v))
    requires AckCount(t.acks, other) == AckCount(s.acks, other) + if acked && other == WorkerAt(s, w).slot then 1 else 0
    ensures HolderInv(t, other, v)
  {
  }

  /** The only claim a Redis command touches is the one its own worker releases. */
  lemma EffectIsLocal(s: State, me: Worker, other: Slot)
    requires me.Busy? && !(me.phase == Releasing && me.slot == other)
    ensures IdemKey(other) in Effect(s, me) <==> IdemKey(other) in s.store
    ensures IdemKey(other) in s.store ==> Effect(s, me)[IdemKey(other)] == s.store[IdemKey(other)]
  {
    KeysAreDistinct(other, me.slot, me.slot.kind);
  }

  lemma CommandKeeps(s: State, w: nat, takesEffect: bool, replies: bool, other: Slot, v: nat)
    requires Inv(s) && WorkerAt(s, w).Busy?
    requires WorkerAt(s, w).phase !in {SendingMarkdown, SendingPlain}
    requires WorkerAt(s, w).phase == Resetting ==> takesEffect && replies
    requires replies ==> takesEffect
    ensures SlotInv(CommandStep(s, w, takesEffect, replies), other)
    ensures HolderInv(CommandStep(s, w, takesEffect, replies), other, v)
  {
    var me := WorkerAt(s, w);
    assert SlotInv(s, other) && HolderInv(s, other, v) && HolderInv(s, other, w);
    if !(me.phase == Releasing && me.slot == other) {
      EffectIsLocal(s, me, other);
    }
  }

  lemma StepKeeps(s: State, a: Action, slot: Slot, v: nat)
    requires Inv(s) && Enabled(s, a) && ResetHolds(s, a) && StartsClose(s, a)
    ensures SlotInv(Step(s, a), slot) && HolderInv(Step(s, a), slot, v)
  {
    match a
    case Tick(_) => assert SlotInv(s, slot) && HolderInv(s, slot, v);
    case Start(w, x) => StartKeepsSlot(s, w, x, slot); StartKeepsHolder(s, w, x, slot, v);
    case DropStart(_, _) => assert SlotInv(s, slot) && HolderInv(s, slot, v);
    case SlowStart(w, x) => SlowStartKeeps(s, w, x, slot, v);
    case Send(w, reply) => SendKeepsSlot(s, w, reply, slot); SendKeepsHolder(s, w, reply, slot, v);
    case Command(w, ok) => CommandKeeps(s, w, ok, ok, slot, v);
    case SlowCommand(w) => CommandKeeps(s, w, true, false, slot, v);
  }

  lemma StepKeepsInv(s: State, a: Action)
    requires Inv(s) && Enabled(s, a) && ResetHolds(s, a) && StartsClose(s, a)
    ensures Inv(Step(s, a))
  {
    forall slot ensures SlotInv(Step(s, a), slot) { StepKeeps(s, a, slot, 0); }
    forall slot, v ensures HolderInv(Step(s, a), slot, v) { StepKeeps(s, a, slot, v); }
  }

  // ------------------------------------------------------------------ held and blocked claims

  /** A live claim with no message sent and nobody at work on one: every dispatch of the slot is skipped. */
  ghost predicate Blocked(s: State, slot: Slot) {
    && Live(s.store, s.now, IdemKey(slot)) && AckCount(s.acks, slot) == 0
    && forall w :: !Holds(WorkerAt(s, w), slot)
  }

  /** Neither a claim whose reply is lost nor a release that fails. */
  predicate ClaimSafe(s: State, a: Action) {
    && !a.SlowStart?
    && (a.Command? && !a.ok && WorkerAt(s, a.worker).Busy? ==> WorkerAt(s, a.worker).phase != Releasing)
  }

  predicate ClaimsSafe(s: State, actions: seq<Action>)
    requires Runs(s, actions)
    decreases |actions|
  {
    actions == [] || (ClaimSafe(s, actions[0]) && ClaimsSafe(Step(s, actions[0]), actions[1..]))
  }

  /** An unacknowledged claim is held by the worker that set it. */
  ghost predicate ClaimHeld(s: State, slot: Slot) {
    IdemKey(slot) in s.store && AckCount(s.acks, slot) == 0 ==>
      slot in s.owner && Holds(WorkerAt(s, s.owner[slot]), slot)
  }

  lemma CommandKeepsHeld(s: State, w: nat, takesEffect: bool, replies: bool, slot: Slot)
    requires Inv(s) && ClaimHeld(s, slot) && WorkerAt(s, w).Busy?
    requires WorkerAt(s, w).phase !in {SendingMarkdown, SendingPlain}
    requires WorkerAt(s, w).phase == Resetting ==> takesEffect && replies
    requires WorkerAt(s, w).phase == Releasing ==> takesEffect
    ensures ClaimHeld(CommandStep(s, w, takesEffect, replies), slot)
  {
    var me := WorkerAt(s, w);
    assert HolderInv(s, slot, w) && SlotInv(s, slot);
    if !(me.phase == Releasing && me.slot == slot) { EffectIsLocal(s, me, slot); }
  }

  lemma StepKeepsHeld(s: State, a: Action, slot: Slot)
    requires Inv(s) && Enabled(s, a) && ResetHolds(s, a) && StartsClose(s, a) && ClaimSafe(s, a)
    requires ClaimHeld(s, slot)
    ensures ClaimHeld(Step(s, a), slot)
  {
    match a
    case Start(w, x) => KeysAreDistinct(x, slot, Briefing);
    case Send(w, reply) => AckCountSnoc(s.acks, Ack(WorkerAt(s, w).slot, w), slot);
    case Command(w, ok) => CommandKeepsHeld(s, w, ok, ok, slot);
    case SlowCommand(w) => CommandKeepsHeld(s, w, true, false, slot);
    case _ =>
  }

  lemma {:induction false} RunKeepsHeld(s: State, actions: seq<Action>, slot: Slot)
    requires Inv(s) && Runs(s, actions) && ClaimHeld(s, slot)
    requires ResetsHold(s, actions) && StartsStayClose(s, actions) && ClaimsSafe(s, actions)
    ensures ClaimHeld(Run(s, actions), slot)
    decreases |actions|
  {
    if actions == [] {
    } else {
      StepKeepsInv(s, actions[0]);
      StepKeepsHeld(s, actions[0], slot);
      RunKeepsHeld(Step(s, actions[0]), actions[1..], slot);
    }
  }

  lemma StartLeavesBlocked(s: State, w: nat, x: Slot, slot: Slot)
    requires WorkerAt(s, w).Idle? && Blocked(s, slot)
    ensures Blocked(StartStep(s, w, x), slot) && Blocked(SetNx(s, w, x), slot)
  {
    KeysAreDistinct(x, slot, Briefing);
    var t, u := StartStep(s, w, x), SetNx(s, w, x);
    forall v ensures !Holds(WorkerAt(t, v), slot) && !Holds(WorkerAt(u, v), slot) { assert !Holds(WorkerAt(s, v), slot); }
  }

  lemma SendLeavesBlocked(s: State, w: nat, reply: Reply, slot: Slot)
    requires Enabled(s, Send(w, reply)) && Blocked(s, slot)
    ensures Blocked(SendStep(s, w, reply), slot)
  {
    SendFrame(s, w, reply);
    assert !Holds(WorkerAt(s, w), slot);
    AckCountSnoc(s.acks, Ack(WorkerAt(s, w).slot, w), slot);
    var t := SendStep(s, w, reply);
    forall v ensures !Holds(WorkerAt(t, v), slot) { assert !Holds(WorkerAt(s, v), slot); }
  }

  lemma CommandLeavesBlocked(s: State, w: nat, takesEffect: bool, replies: bool, slot: Slot)
    requires WorkerAt(s, w).Busy? && WorkerAt(s, w).phase !in {SendingMarkdown, SendingPlain} && Blocked(s, slot)
    ensures Blocked(CommandStep(s, w, takesEffect, replies), slot)
  {
    assert !Holds(WorkerAt(s, w), slot);
    EffectIsLocal(s, WorkerAt(s, w), slot);
    var t := CommandStep(s, w, takesEffect, replies);
    forall v ensures !Holds(WorkerAt(t, v), slot) { assert !Holds(WorkerAt(s, v), slot); }
  }
}
