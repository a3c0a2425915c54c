/**
 * `dispatch`, `attemptSend`, `recordFailure` and `resetFailureCounter` as the source runs them
 * against one Redis, and the connection to the protocol: one call is one of its runs.
 */
module DispatchService {
  import opened Common
  import opened RedisStore
  import opened Dispatcher

  datatype Outcome = Skipped | Sent | Failed // a failed call throws

  /** How a Redis command fares: answered, in effect but its reply lost, or without effect. */
  datatype Fate = Replied | ReplyLost | Dropped

  class Redis {
    var store: Store<int>

    constructor (store: Store<int>)
      ensures this.store == store
    {
      this.store := store;
    }

    /** `SET key value EX ttl NX`; None is a throw. */
    method SetNx(now: int, key: string, value: int, ttl: int, fate: Fate) returns (claimed: Option<bool>)
      modifies this
      ensures claimed == if fate == Replied then Some(!old(Live(store, now, key))) else None
      ensures store == if fate == Dropped || old(Live(store, now, key)) then old(store) else SetEx(old(store), now, key, value, ttl)
    {
      if fate == Dropped { return None; }
      var live := Live(store, now, key);
      if !live { store := SetEx(store, now, key, value, ttl); }
      claimed := if fate == Replied then Some(!live) else None;
    }

    method Delete(key: string, fate: Fate) returns (ok: bool)
      modifies this
      ensures ok <==> fate == Replied
      ensures store == if fate == Dropped then old(store) else Del(old(store), key)
    {
      if fate != Dropped { store := Del(store, key); }
      ok := fate == Replied;
    }

    method Increment(now: int, key: string, fate: Fate) returns (ok: bool)
      modifies this
      ensures ok <==> fate == Replied
      ensures store == if fate == Dropped then old(store) else Incr(old(store), now, key)
    {
      if fate != Dropped { store := Incr(store, now, key); }
      ok := fate == Replied;
    }

    method Renew(now: int, key: string, ttl: int, fate: Fate) returns (ok: bool)
      modifies this
      ensures ok <==> fate == Replied
      ensures store == if fate == Dropped then old(store) else Expire(old(store), now, key, ttl)
    {
      if fate != Dropped { store := Expire(store, now, key, ttl); }
      ok := fate == Replied;
    }
  }

  /** What one call meets: at its SET NX, its sends, the counter reset, and in the catch block. */
  datatype Replies = Replies(
    claim: Fate, first: Reply, fallback: Reply, reset: Fate, release: Fate, count: Fate, renew: Fate)

  predicate Delivered(w: Replies) {
    w.first == Acked || (w.first == ParseRefused && w.fallback == Acked)
  }

  /** The protocol action of a command of worker 0. */
  function Act(fate: Fate): Action {
    match fate
    case Replied => Command(0, true)
    case ReplyLost => SlowCommand(0)
    case Dropped => Command(0, false)
  }

  /** The protocol actions of one call by worker 0. */
  function Script(live: bool, slot: Slot, w: Replies): seq<Action> {
    match w.claim
    case Dropped => [DropStart(0, slot)]
    case ReplyLost => [SlowStart(0, slot)]
    case Replied => [Start(0, slot)] + if live then [] else SendScript(w) + EndScript(w)
  }

  function SendScript(w: Replies): seq<Action> {
    [Send(0, w.first)] + if w.first == ParseRefused then [Send(0, w.fallback)] else []
  }

  function EndScript(w: Replies): seq<Action> {
    if !Delivered(w) then CatchScript(w)
    else [Act(w.reset)] + if w.reset == Replied then [] else CatchScript(w)
  }

  /** Release the claim, INCR, EXPIRE; the first of them that throws is the last. */
  function CatchScript(w: Replies): seq<Action> {
    [Act(w.release)] + if w.release != Replied then [] else CountScript(w)
  }

  function CountScript(w: Replies): seq<Action> {
    [Act(w.count)] + if w.count != Replied then [] else [Act(w.renew)]
  }

  /** The key space after a call that got through, and after one that did not. */
  function AfterSent(store: Store<int>, now: int, slot: Slot): Store<int> {
    Del(SetEx(store, now, IdemKey(slot), 1, 36 * 3600), CounterKey(slot.kind))
  }

  function Recorded(store: Store<int>, now: int, kind: Kind): Store<int> {
    Expire(Incr(store, now, CounterKey(kind)), now, CounterKey(kind), COUNTER_TTL)
  }

  function AfterFailed(store: Store<int>, now: int, slot: Slot): Store<int> {
    Recorded(Del(store, IdemKey(slot)), now, slot.kind)
  }

  /** The claim failed to come about only through Telegram or a dropped reset. */
  predicate Undisturbed(w: Replies) {
    && w.claim == Replied && w.release == Replied && w.count == Replied && w.renew == Replied
    && (Delivered(w) ==> w.reset != ReplyLost)
  }

  ghost predicate Follows(s: State, trace: seq<Action>, now: State) {
    Runs(s, trace) && Run(s, trace) == now
  }

  lemma {:induction false} OneMoreStep(s: State, trace: seq<Action>, now: State, a: Action)
    requires Follows(s, trace, now) && Enabled(now, a)
    ensures Follows(s, trace + [a], Step(now, a))
    decreases |trace|
  {
    if trace == [] {
      assert [a][1..] == [];
    } else {
      assert (trace + [a])[1..] == trace[1..] + [a];
      OneMoreStep(Step(s, trace[0]), trace[1..], now, a);
    }
  }

  lemma OneStep(s: State, a: Action)
    requires Enabled(s, a)
    ensures Follows(s, [a], Step(s, a))
    ensures [a] + [] == [a]
  {
    assert [a][1..] == [];
  }

  class ProactiveDispatcher {
    const redis: Redis

    constructor (redis: Redis)
      ensures this.redis == redis
    {
      this.redis := redis;
    }

    /** One send, and after a parse refusal one more. */
    method AttemptSend(w: Replies, ghost slot: Slot, ghost before: State) returns (ok: bool, ghost after: State)
      requires WorkerAt(before, 0).Busy? && WorkerAt(before, 0).phase == SendingMarkdown && WorkerAt(before, 0).slot == slot
      ensures ok <==> w.first == Acked || (w.first == ParseRefused && w.fallback == Acked)
      ensures Follows(before, SendScript(w), after)
      ensures after.store == before.store && after.now == before.now
      ensures WorkerAt(after, 0) == WorkerAt(before, 0).(phase := if ok then Resetting else Releasing)
    {
      after := Step(before, Send(0, w.first));
      OneStep(before, Send(0, w.first));
      if w.first == Acked { return true, after; }
      if w.first == ParseRefused {
        OneMoreStep(before, [Send(0, w.first)], after, Send(0, w.fallback));
        after := Step(after, Send(0, w.fallback));
        return w.fallback == Acked, after;
      }
      ok := false;
    }

    method RecordFailure(now: int, kind: Kind, w: Replies, ghost before: State) returns (ghost after: State)
      requires before.store == redis.store && before.now == now
      requires WorkerAt(before, 0).Busy? && WorkerAt(before, 0).phase == Counting && WorkerAt(before, 0).slot.kind == kind
      modifies redis
      ensures Follows(before, CountScript(w), after) && after.store == redis.store && WorkerAt(after, 0).Idle?
      ensures w.count == w.renew == Replied ==> redis.store == Recorded(old(redis.store), now, kind)
    {
      after := Step(before, Act(w.count));
      OneStep(before, Act(w.count));
      var ok := redis.Increment(now, CounterKey(kind), w.count);
      if !ok { return; }
      OneMoreStep(before, [Act(w.count)], after, Act(w.renew));
      after := Step(after, Act(w.renew));
      ok := redis.Renew(now, CounterKey(kind), COUNTER_TTL, w.renew);
    }

    /** The catch block: it goes as far as its commands do, and is left by a throw in any case. */
    method ReleaseAndCount(now: int, slot: Slot, w: Replies, ghost before: State) returns (ghost after: State)
      requires before.store == redis.store && before.now == now
      requires WorkerAt(before, 0).Busy? && WorkerAt(before, 0).phase == Releasing && WorkerAt(before, 0).slot == slot
      modifies redis
      ensures Follows(before, CatchScript(w), after) && after.store == redis.store && WorkerAt(after, 0).Idle?
      ensures w.release == w.count == w.renew == Replied ==> redis.store == AfterFailed(old(redis.store), now, slot)
    {
      ghost var released := Step(before, Act(w.release));
      after := released;
      OneStep(before, Act(w.release));
      var ok := redis.Delete(IdemKey(slot), w.release);
      if !ok { return; }
      after := RecordFailure(now, slot.kind, w, released);
      Joined(before, [Act(w.release)], released, CountScript(w), after);
    }

    /** The rest of the call once the sends are over. */
    method Settle(now: int, slot: Slot, w: Replies, delivered: bool, ghost before: State) returns (sent: bool, ghost after: State)
      requires delivered <==> Delivered(w)
      requires before.store == redis.store && before.now == now
      requires WorkerAt(before, 0).Busy? && WorkerAt(before, 0).slot == slot
      requires WorkerAt(before, 0).phase == if delivered then Resetting else Releasing
      modifies redis
      ensures sent <==> delivered && w.reset == Replied
      ensures Follows(before, EndScript(w), after) && after.store == redis.store && WorkerAt(after, 0).Idle?
      ensures sent ==> redis.store == Del(old(redis.store), CounterKey(slot.kind))
      ensures !sent && Undisturbed(w) ==> redis.store == AfterFailed(old(redis.store), now, slot)
    {
      if !delivered {
        after := ReleaseAndCount(now, slot, w, before);
        return false, after;
      }
      ghost var reset := Step(before, Act(w.reset));
      after := reset;
      OneStep(before, Act(w.reset));
      sent := redis.Delete(CounterKey(slot.kind), w.reset);
      if sent { return; }
      after := ReleaseAndCount(now, slot, w, reset);
      Joined(before, [Act(w.reset)], reset, CatchScript(w), after);
    }

    /**
     * One call, whatever its commands and sends meet. It is skipped exactly when SET NX
     * answers that the slot's key is live, and sent exactly when SET NX and the reset are
     * answered and Telegram acknowledged; anything else throws. The key space is the one the
     * protocol's run of these replies leaves; where only Telegram or a dropped reset fails a
     * call, its claim is gone again and the failure counted.
     */
    method Dispatch(now: int, slot: Slot, w: Replies) returns (outcome: Outcome)
      modifies redis
      ensures outcome == Skipped <==> w.claim == Replied && old(Live(redis.store, now, IdemKey(slot)))
      ensures outcome == Sent <==>
        && w.claim == Replied && !old(Live(redis.store, now, IdemKey(slot))) && w.reset == Replied
        && (w.first == Acked || (w.first == ParseRefused && w.fallback == Acked))
      ensures outcome == Skipped ==> redis.store == old(redis.store)
      ensures outcome == Sent ==> redis.store == AfterSent(old(redis.store), now, slot)
      ensures outcome == Failed && Undisturbed(w) ==> redis.store == AfterFailed(old(redis.store), now, slot)
      ensures
        var s := Init.(now := now, store := old(redis.store));
        var script := Script(old(Live(redis.store, now, IdemKey(slot))), slot, w);
        Runs(s, script) && Run(s, script).store == redis.store && WorkerAt(Run(s, script), 0).Idle?
    {
      ghost var start := Init.(now := now, store := redis.store);
      var claimed := redis.SetNx(now, IdemKey(slot), 1, CLAIM_TTL, w.claim);
      ClaimStep(start, slot, w);
      if claimed.None? { return Failed; }
      if !claimed.value { return Skipped; }
      ghost var middle, end;
      var delivered, sent;
      delivered, middle := AttemptSend(w, slot, Step(start, Start(0, slot)));
      sent, end := Settle(now, slot, w, delivered, middle);
      WholeRun(start, slot, w, middle, end);
      ClaimUndone(start.store, now, slot);
      outcome := if sent then Sent else Failed;
    }
  }

  /** A claim set and released leaves no trace. */
  lemma ClaimUndone(store: Store<int>, now: int, slot: Slot)
    ensures AfterFailed(SetEx(store, now, IdemKey(slot), 1, CLAIM_TTL), now, slot) == AfterFailed(store, now, slot)
  {
    assert Del(SetEx(store, now, IdemKey(slot), 1, CLAIM_TTL), IdemKey(slot)) == Del(store, IdemKey(slot));
  }

  // ------------------------------------------------------------------ the call as a run

  lemma {:induction false} Joined(s: State, first: seq<Action>, t: State, second: seq<Action>, u: State)
    requires Follows(s, first, t) && Follows(t, second, u)
    ensures Follows(s, first + second, u)
    decreases |first|
  {
    if first == [] {
      assert first + second == second;
    } else {
      assert (first + second)[1..] == first[1..] + second;
      Joined(Step(s, first[0]), first[1..], t, second, u);
    }
  }

  /** The first command, and all of the call when that is all there is to it. */
  lemma ClaimStep(s: State, slot: Slot, w: Replies)
    requires WorkerAt(s, 0).Idle?
    ensures
      var live := Live(s.store, s.now, IdemKey(slot));
      var first := match w.claim case Dropped => DropStart(0, slot) case ReplyLost => SlowStart(0, slot) case Replied => Start(0, slot);
      && Follows(s, [first], Step(s, first))
      && (w.claim != Replied || live ==> Script(live, slot, w) == [first])
  {
    var first := match w.claim case Dropped => DropStart(0, slot) case ReplyLost => SlowStart(0, slot) case Replied => Start(0, slot);
    OneStep(s, first);
  }

  lemma WholeRun(s: State, slot: Slot, w: Replies, middle: State, end: State)
    requires w.claim == Replied && WorkerAt(s, 0).Idle? && !Live(s.store, s.now, IdemKey(slot))
    requires Follows(Step(s, Start(0, slot)), SendScript(w), middle) && Follows(middle, EndScript(w), end)
    ensures Follows(s, Script(false, slot, w), end)
  {
    ClaimStep(s, slot, w);
    Joined(Step(s, Start(0, slot)), SendScript(w), middle, EndScript(w), end);
    Joined(s, [Start(0, slot)], Step(s, Start(0, slot)), SendScript(w) + EndScript(w), end);
  }

  // ------------------------------------------------------------------ the failure counter

  /** A call that was not skipped: when, what for, and whether it was sent. */
  datatype Attempt = Attempt(at: int, slot: Slot, sent: bool)

  function AfterAttempt(store: Store<int>, a: Attempt): Store<int> {
    if a.sent then AfterSent(store, a.at, a.slot) else AfterFailed(store, a.at, a.slot)
  }

  /** The key space after some calls, one after the other, on an empty Redis. */
  function AfterAll(attempts: seq<Attempt>): Store<int> {
    if attempts == [] then map[]
    else AfterAttempt(AfterAll(attempts[..|attempts| - 1]), attempts[|attempts| - 1])
  }

  /** Failures of `kind` since its last success. */
  function FailuresSinceSuccess(attempts: seq<Attempt>, kind: Kind): nat {
    if attempts == [] then 0
    else
      var a, before := attempts[|attempts| - 1], FailuresSinceSuccess(attempts[..|attempts| - 1], kind);
      if a.slot.kind != kind then before else if a.sent then 0 else before + 1
  }

  /** When `kind` last failed, if it has failed since its last success. */
  function LastFailure(attempts: seq<Attempt>, kind: Kind): Option<int> {
    if attempts == [] then None
    else
      var a := attempts[|attempts| - 1];
      if a.slot.kind != kind then LastFailure(attempts[..|attempts| - 1], kind)
      else if a.sent then None else Some(a.at)
  }

  /** Since the last success of `kind` no two failures in a row are 24 hours apart. */
  predicate FailuresStayClose(attempts: seq<Attempt>, kind: Kind) {
    attempts == [] ||
    var a, rest := attempts[|attempts| - 1], attempts[..|attempts| - 1];
    if a.slot.kind != kind then FailuresStayClose(rest, kind)
    else if a.sent then true
    else
      FailuresStayClose(rest, kind)
      && (LastFailure(rest, kind).Some? ==> a.at < LastFailure(rest, kind).value + 86_400)
  }

  lemma CountersAreSeparate(a: Kind, b: Kind)
    ensures CounterKey(a) == CounterKey(b) <==> a == b
  {
    assert CounterKey(a)[10] == Name(a)[0] && CounterKey(b)[10] == Name(b)[0];
  }

  /** What one call does to the counter entry of a kind. */
  lemma CounterStep(store: Store<int>, a: Attempt, kind: Kind)
    ensures
      var key, after := CounterKey(kind), AfterAttempt(store, a);
      if a.slot.kind != kind then (key in after <==> key in store) && (key in store ==> after[key] == store[key])
      else if a.sent then key !in after
      else key in after && after[key] ==
           Entry(if Live(store, a.at, key) then store[key].value + 1 else 1, Some(a.at + 86_400))
  {
    Dispatcher.KeysAreDistinct(a.slot, a.slot, kind);
    Dispatcher.KeysAreDistinct(a.slot, a.slot, a.slot.kind);
    CountersAreSeparate(kind, a.slot.kind);
  }

  /** What the counter entry of a kind is after some calls. */
  ghost predicate Counted(store: Store<int>, attempts: seq<Attempt>, kind: Kind, last: int) {
    var key, failures := CounterKey(kind), FailuresSinceSuccess(attempts, kind);
    && key in store && store[key].expires == Some(last + 86_400)
    && 1 <= store[key].value <= failures
    && (store[key].value == failures <==> FailuresStayClose(attempts, kind))
  }

  /**
   * Whatever calls of either kind follow one another, a kind has a counter exactly when it
   * failed since its last success; it lives 24 hours from the last failure, never overstates
   * the failures since that success, and equals them exactly when they stayed under 24 hours apart.
   */
  lemma {:induction false} CounterCountsFailures(attempts: seq<Attempt>, kind: Kind)
    ensures
      var store, last := AfterAll(attempts), LastFailure(attempts, kind);
      && (last.None? ==> FailuresSinceSuccess(attempts, kind) == 0 && FailuresStayClose(attempts, kind))
      && (last.None? ==> CounterKey(kind) !in store)
      && (last.Some? ==> Counted(store, attempts, kind, last.value))
  {
    if attempts == [] {
    } else {
      var rest := attempts[..|attempts| - 1];
      CounterCountsFailures(rest, kind);
      CounterStep(AfterAll(rest), attempts[|attempts| - 1], kind);
    }
  }
}
