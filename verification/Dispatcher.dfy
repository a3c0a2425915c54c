/**
 * The once-a-day dispatcher of apps/assistant/src/proactive/proactive-dispatcher.service.ts as a
 * protocol: each Redis command and Telegram request is one atomic step of some worker.
 */
module Dispatcher {
  import opened Common
  import opened RedisStore

  const CLAIM_TTL := 36 * 3600
  const COUNTER_TTL := 24 * 3600

  datatype Kind = Briefing | Digest

  /** What must be sent at most once. */
  datatype Slot = Slot(kind: Kind, runDate: string)

  function Name(kind: Kind): string {
    match kind
    case Briefing => "briefing"
    case Digest => "digest"
  }

  function IdemKey(slot: Slot): string {
    "proactive:" + Name(slot.kind) + ":" + slot.runDate + ":sent"
  }

  function CounterKey(kind: Kind): string {
    "proactive:" + Name(kind) + ":consecutive_failures"
  }

  /** Different slots claim different keys, and no claim key is a counter key. */
  lemma KeysAreDistinct(a: Slot, b: Slot, kind: Kind)
    ensures IdemKey(a) == IdemKey(b) ==> a == b
    ensures IdemKey(a) != CounterKey(kind)
  {
    var x, y := IdemKey(a), IdemKey(b);
    if x == y {
      assert x[10] == Name(a.kind)[0] && y[10] == Name(b.kind)[0];
      assert a.kind == b.kind;
      var n := 11 + |Name(a.kind)|;
      assert x[n..|x| - 5] == a.runDate && y[n..|y| - 5] == b.runDate;
    }
    assert x[|x| - 1] == 't' && CounterKey(kind)[|CounterKey(kind)| - 1] == 's';
  }

  // ------------------------------------------------------------------ steps

  /** What `sender.send` answers; a lost answer is an exception. */
  datatype Reply = Acked | ParseRefused | Refused | Lost

  /** Where one `dispatch` call stands, between two awaits. */
  datatype Phase =
    | SendingMarkdown | SendingPlain   // attemptSend
    | Resetting                        // acknowledged, counter not yet deleted
    | Releasing                        // in the catch block, claim not yet deleted
    | Counting | Expiring              // recordFailure

  datatype Worker = Idle | Busy(slot: Slot, claimedAt: int, phase: Phase)

  datatype Ack = Ack(slot: Slot, worker: nat)

  /**
   * `firstStart`, `acks` and `owner` are history: when a SET NX for each slot first reached
   * Redis, every send Telegram acknowledged, and whose SET NX last created each slot's key.
   */
  datatype State = State(
    now: int,
    store: Store<int>,
    workers: map<nat, Worker>,
    firstStart: map<Slot, int>,
    acks: seq<Ack>,
    owner: map<Slot, nat>)

  datatype Action =
    | Tick(seconds: nat)
    | Start(worker: nat, slot: Slot)
    | DropStart(worker: nat, slot: Slot)   // its SET NX throws without effect
    | SlowStart(worker: nat, slot: Slot)   // its SET NX takes effect but the reply is lost, so it throws
    | Send(worker: nat, reply: Reply)
    | Command(worker: nat, ok: bool)   // the worker's next Redis command succeeds or throws
    | SlowCommand(worker: nat)         // it takes effect but its reply is lost, so it throws

  function WorkerAt(s: State, w: nat): Worker {
    if w in s.workers then s.workers[w] else Idle
  }

  predicate Enabled(s: State, a: Action) {
    match a
    case Tick(_) => true
    case Start(w, _) => WorkerAt(s, w).Idle?
    case DropStart(w, _) => WorkerAt(s, w).Idle?
    case SlowStart(w, _) => WorkerAt(s, w).Idle?
    case Send(w, _) => WorkerAt(s, w).Busy? && WorkerAt(s, w).phase in {SendingMarkdown, SendingPlain}
    case Command(w, _) => WorkerAt(s, w).Busy? && WorkerAt(s, w).phase !in {SendingMarkdown, SendingPlain}
    case SlowCommand(w) => WorkerAt(s, w).Busy? && WorkerAt(s, w).phase !in {SendingMarkdown, SendingPlain}
  }

  function SetPhase(s: State, w: nat, phase: Phase): State
    requires WorkerAt(s, w).Busy?
  {
    s.(workers := s.workers[w := WorkerAt(s, w).(phase := phase)])
  }

  function Finish(s: State, w: nat): State {
    s.(workers := s.workers[w := Idle])
  }

  /** `SET key 1 EX 129600 NX` by worker `w`. */
  function SetNx(s: State, w: nat, slot: Slot): State {
    var seen := s.(firstStart := if slot in s.firstStart then s.firstStart else s.firstStart[slot := s.now]);
    if Live(s.store, s.now, IdemKey(slot)) then seen
    else seen.(
      store := SetEx(s.store, s.now, IdemKey(slot), 1, CLAIM_TTL),
      owner := s.owner[slot := w])
  }

  /** The command and the branch on its reply. Outside the try block, a throw ends the call. */
  function StartStep(s: State, w: nat, slot: Slot): State {
    var t := SetNx(s, w, slot);
    if Live(s.store, s.now, IdemKey(slot)) then t
    else t.(workers := s.workers[w := Busy(slot, s.now, SendingMarkdown)])
  }

  /** `attemptSend`: an acknowledgement goes on to the reset, a parse error falls back once. */
  function SendStep(s: State, w: nat, reply: Reply): State
    requires Enabled(s, Send(w, reply))
  {
    var me := WorkerAt(s, w);
    if reply == Acked then SetPhase(s, w, Resetting).(acks := s.acks + [Ack(me.slot, w)])
    else if reply == ParseRefused && me.phase == SendingMarkdown then SetPhase(s, w, SendingPlain)
    else SetPhase(s, w, Releasing)
  }

  /** A refusal to parse the first text, and nothing else, leads to a second send, which is the last. */
  lemma SecondSendIff(s: State, w: nat, reply: Reply)
    requires Enabled(s, Send(w, reply))
    ensures
      var before, after := WorkerAt(s, w).phase, WorkerAt(SendStep(s, w, reply), w).phase;
      && (after == SendingPlain <==> before == SendingMarkdown && reply == ParseRefused)
      && (after == Resetting <==> reply == Acked)
      && (after == Releasing <==> reply != Acked && !(before == SendingMarkdown && reply == ParseRefused))
  {
  }

  /** The effect of the command a phase is about to issue. */
  function Effect(s: State, me: Worker): Store<int>
    requires me.Busy?
  {
    match me.phase
    case Resetting => Del(s.store, CounterKey(me.slot.kind))
    case Releasing => Del(s.store, IdemKey(me.slot))
    case Counting => Incr(s.store, s.now, CounterKey(me.slot.kind))
    case Expiring => Expire(s.store, s.now, CounterKey(me.slot.kind), COUNTER_TTL)
    case _ => s.store
  }

  /** A throw inside the try block enters the catch block; a throw in the catch block leaves it. */
  function CommandStep(s: State, w: nat, takesEffect: bool, replies: bool): State
    requires WorkerAt(s, w).Busy?
  {
    var me := WorkerAt(s, w);
    var t := if takesEffect then s.(store := Effect(s, me)) else s;
    if me.phase == Resetting then (if replies then Finish(t, w) else SetPhase(t, w, Releasing))
    else if !replies then Finish(t, w)
    else if me.phase == Releasing then SetPhase(t, w, Counting)
    else if me.phase == Counting then SetPhase(t, w, Expiring)
    else Finish(t, w)
  }

  function Step(s: State, a: Action): State
    requires Enabled(s, a)
  {
    match a
    case Tick(n) => s.(now := s.now + n)
    case Start(w, slot) => StartStep(s, w, slot)
    case DropStart(_, _) => s
    case SlowStart(w, slot) => SetNx(s, w, slot)
    case Send(w, reply) => SendStep(s, w, reply)
    case Command(w, ok) => CommandStep(s, w, ok, ok)
    case SlowCommand(w) => CommandStep(s, w, true, false)
  }

  const Init := State(0, map[], map[], map[], [], map[])

  predicate Runs(s: State, actions: seq<Action>)
    decreases |actions|
  {
    actions == [] || (Enabled(s, actions[0]) && Runs(Step(s, actions[0]), actions[1..]))
  }

  function Run(s: State, actions: seq<Action>): State
    requires Runs(s, actions)
    decreases |actions|
  {
    if actions == [] then s else Run(Step(s, actions[0]), actions[1..])
  }

  // ------------------------------------------------------------------ the two conditions

  /** No Redis command fails after an acknowledged send. */
  predicate ResetHolds(s: State, a: Action) {
    ((a.Command? && !a.ok) || a.SlowCommand?) ==>
      !(WorkerAt(s, a.worker).Busy? && WorkerAt(s, a.worker).phase == Resetting)
  }

  /** Every dispatch of a slot that reaches Redis starts within 36 hours of the first. */
  predicate StartsClose(s: State, a: Action) {
    (a.Start? || a.SlowStart?) && a.slot in s.firstStart ==> s.now < s.firstStart[a.slot] + 36 * 3600
  }

  predicate ResetsHold(s: State, actions: seq<Action>)
    requires Runs(s, actions)
    decreases |actions|
  {
    actions == [] || (ResetHolds(s, actions[0]) && ResetsHold(Step(s, actions[0]), actions[1..]))
  }

  predicate StartsStayClose(s: State, actions: seq<Action>)
    requires Runs(s, actions)
    decreases |actions|
  {
    actions == [] || (StartsClose(s, actions[0]) && StartsStayClose(Step(s, actions[0]), actions[1..]))
  }

  function AckCount(acks: seq<Ack>, slot: Slot): nat {
    if acks == [] then 0
    else AckCount(acks[..|acks| - 1], slot) + if acks[|acks| - 1].slot == slot then 1 else 0
  }

  lemma AckCountSnoc(acks: seq<Ack>, ack: Ack, slot: Slot)
    ensures AckCount(acks + [ack], slot) == AckCount(acks, slot) + if ack.slot == slot then 1 else 0
  {
    assert (acks + [ack])[..|acks|] == acks;
  }
}
