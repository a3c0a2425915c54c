/** The sliding-window limiter of apps/assistant/src/lifecycle/fatal.interceptor.ts: `shouldEmit`. */
module Limiter {

  ghost predicate Nondecreasing(times: seq<int>) {
    forall i, j :: 0 <= i <= j < |times| ==> times[i] <= times[j]
  }

  ghost predicate UpTo(times: seq<int>, limit: int) {
    forall i :: 0 <= i < |times| ==> times[i] <= limit
  }

  /** The instants that lie in a closed interval. */
  function Within(times: seq<int>, from: int, to: int): seq<int> {
    if times == [] then []
    else if from <= times[0] <= to then [times[0]] + Within(times[1..], from, to)
    else Within(times[1..], from, to)
  }

  /** One question: accept while fewer than `max` were accepted in the last `window`, ends included. */
  function Accept(before: seq<int>, now: int, max: int, window: int): seq<int> {
    if |Within(before, now - window, now)| < max then before + [now] else before
  }

  /** The emits accepted when `shouldEmit` is asked at the instants `asked`, in order. */
  function Accepted(asked: seq<int>, max: int, window: int): seq<int> {
    if asked == [] then []
    else Accept(Accepted(asked[..|asked| - 1], max, window), asked[|asked| - 1], max, window)
  }

  lemma AcceptedSnoc(asked: seq<int>, now: int, max: int, window: int)
    ensures Accepted(asked + [now], max, window) == Accept(Accepted(asked, max, window), now, max, window)
  {
    var all := asked + [now];
    assert all[..|all| - 1] == asked && all[|all| - 1] == now;
  }

  // ------------------------------------------------------------------ closed intervals

  lemma WithinCons(t: int, rest: seq<int>, from: int, to: int)
    ensures Within([t] + rest, from, to) ==
            if from <= t <= to then [t] + Within(rest, from, to) else Within(rest, from, to)
  {
    assert ([t] + rest)[1..] == rest;
  }

  lemma {:induction false} WithinSnoc(times: seq<int>, t: int, from: int, to: int)
    ensures Within(times + [t], from, to) == Within(times, from, to) + if from <= t <= to then [t] else []
  {
    if times == [] {
      assert times + [t] == [t];
    } else {
      assert (times + [t])[1..] == times[1..] + [t];
      WithinSnoc(times[1..], t, from, to);
    }
  }

  /** A later interval can be read off what an earlier one held. */
  lemma {:induction false} WithinLater(times: seq<int>, from: int, to: int, from': int, to': int)
    requires UpTo(times, to) && from <= from' && to <= to'
    ensures Within(Within(times, from, to), from', to') == Within(times, from', to')
  {
    if times == [] {
    } else {
      var rest := Within(times[1..], from, to);
      WithinLater(times[1..], from, to, from', to');
      WithinCons(times[0], rest, from', to');
    }
  }

  lemma {:induction false} WithinWider(times: seq<int>, from: int, to: int, from': int, to': int)
    requires UpTo(times, to') && from' <= from
    ensures |Within(times, from, to)| <= |Within(times, from', to')|
  {
    if times == [] {
    } else {
      WithinWider(times[1..], from, to, from', to');
    }
  }

  lemma {:induction false} WithinMembers(times: seq<int>, from: int, to: int, t: int)
    ensures t in Within(times, from, to) <==> t in times && from <= t <= to
  {
    if times == [] {
    } else {
      WithinMembers(times[1..], from, to, t);
    }
  }

  lemma {:induction false} WithinKeepsOrder(times: seq<int>, from: int, to: int)
    requires Nondecreasing(times)
    ensures Nondecreasing(Within(times, from, to)) && UpTo(Within(times, from, to), to)
  {
    if times == [] {
    } else {
      var rest := Within(times[1..], from, to);
      WithinKeepsOrder(times[1..], from, to);
      forall i | 0 <= i < |rest| ensures times[0] <= rest[i] {
        WithinMembers(times[1..], from, to, rest[i]);
      }
    }
  }

  lemma {:induction false} WithinAll(times: seq<int>, from: int, to: int)
    requires Nondecreasing(times) && UpTo(times, to) && (times != [] ==> from <= times[0])
    ensures Within(times, from, to) == times
  {
    if times == [] {
    } else {
      WithinAll(times[1..], from, to);
    }
  }

  lemma {:induction false} AcceptedOrdered(asked: seq<int>, max: int, window: int)
    requires Nondecreasing(asked)
    ensures Nondecreasing(Accepted(asked, max, window))
    ensures asked != [] ==> UpTo(Accepted(asked, max, window), asked[|asked| - 1])
  {
    if asked == [] {
    } else {
      AcceptedOrdered(asked[..|asked| - 1], max, window);
    }
  }

  // ------------------------------------------------------------------ the limiter

  class FatalInterceptor {
    const maxPerWindow: int
    const windowMs: nat
    var emits: seq<int>
    /** Every instant at which `shouldEmit` was asked. */
    ghost var asked: seq<int>

    /** The queue is exactly the accepted emits in the window that ended at the last question. */
    ghost predicate Valid()
      reads this
    {
      && Nondecreasing(asked)
      && emits == Queue(asked, maxPerWindow, windowMs)
    }

    constructor (maxPerWindow: int, windowMs: nat)
      ensures Valid() && asked == []
      ensures this.maxPerWindow == maxPerWindow && this.windowMs == windowMs
    {
      this.maxPerWindow, this.windowMs := maxPerWindow, windowMs;
      emits, asked := [], [];
    }

    /** Refused exactly when `maxPerWindow` emits were accepted in the last `windowMs`. */
    method ShouldEmit(now: int) returns (ok: bool)
      requires Valid() && UpTo(asked, now)
      modifies this
      ensures Valid() && asked == old(asked) + [now]
      ensures ok <==> |Recent(Accepted(old(asked), maxPerWindow, windowMs), now, windowMs)| < maxPerWindow
    {
      ghost var recent := Recent(Accepted(asked, maxPerWindow, windowMs), now, windowMs);
      QueueIsEnough(asked, maxPerWindow, windowMs, now);
      QueueAfter(asked, now, maxPerWindow, windowMs);
      while emits != [] && now - emits[0] > windowMs
        invariant asked == old(asked)
        invariant Recent(emits, now, windowMs) == recent
        invariant Nondecreasing(emits) && UpTo(emits, now)
        decreases |emits|
      {
        emits := emits[1..];
      }
      WithinAll(emits, now - windowMs, now);
      ok := |emits| < maxPerWindow;
      if ok { emits := emits + [now]; }
      asked := asked + [now];
    }
  }

  function Recent(times: seq<int>, now: int, window: int): seq<int> {
    Within(times, now - window, now)
  }

  /** What the queue must hold after the questions `asked`. */
  function Queue(asked: seq<int>, max: int, window: int): seq<int> {
    if asked == [] then [] else Recent(Accepted(asked, max, window), asked[|asked| - 1], window)
  }

  /** What the queue dropped earlier no later question can need. */
  lemma QueueIsEnough(asked: seq<int>, max: int, window: nat, now: int)
    requires Nondecreasing(asked) && UpTo(asked, now)
    ensures Recent(Queue(asked, max, window), now, window) == Recent(Accepted(asked, max, window), now, window)
    ensures Nondecreasing(Queue(asked, max, window)) && UpTo(Queue(asked, max, window), now)
  {
    if asked != [] {
      var last := asked[|asked| - 1];
      AcceptedOrdered(asked, max, window);
      WithinLater(Accepted(asked, max, window), last - window, last, now - window, now);
      WithinKeepsOrder(Accepted(asked, max, window), last - window, last);
    }
  }

  lemma RecentAfter(before: seq<int>, now: int, max: int, window: nat)
    ensures
      var recent := Recent(before, now, window);
      Recent(Accept(before, now, max, window), now, window) == if |recent| < max then recent + [now] else recent
  {
    WithinSnoc(before, now, now - window, now);
  }

  lemma QueueAfter(asked: seq<int>, now: int, max: int, window: nat)
    ensures
      var recent := Recent(Accepted(asked, max, window), now, window);
      Queue(asked + [now], max, window) == if |recent| < max then recent + [now] else recent
  {
    var all := asked + [now];
    assert all != [] && all[|all| - 1] == now;
    AcceptedSnoc(asked, now, max, window);
    RecentAfter(Accepted(asked, max, window), now, max, window);
  }

  // ------------------------------------------------------------------ results

  /**
   * Whenever and however often it is asked on a clock that never goes back, at most
   * `max` accepted emits lie in any closed interval as long as the window.
   */
  lemma {:induction false} AtMostMaxPerWindow(asked: seq<int>, max: nat, window: nat, from: int)
    requires Nondecreasing(asked)
    ensures |Within(Accepted(asked, max, window), from, from + window)| <= max
  {
    if asked == [] {
    } else {
      var front, now := asked[..|asked| - 1], asked[|asked| - 1];
      var before := Accepted(front, max, window);
      AtMostMaxPerWindow(front, max, window, from);
      WithinSnoc(before, now, from, from + window);
      if from <= now <= from + window {
        AcceptedOrdered(front, max, window);
        WithinWider(before, from, from + window, now - window, now);
      }
    }
  }

  /** The bound is reached: a burst at one instant gets exactly `max` emits, or all if fewer. */
  lemma {:induction false} BurstIsFilled(asked: seq<int>, now: int, max: nat, window: nat)
    requires forall i :: 0 <= i < |asked| ==> asked[i] == now
    ensures |Accepted(asked, max, window)| == if |asked| < max then |asked| else max
    ensures forall i :: 0 <= i < |Accepted(asked, max, window)| ==> Accepted(asked, max, window)[i] == now
  {
    if asked == [] {
    } else {
      var before := Accepted(asked[..|asked| - 1], max, window);
      BurstIsFilled(asked[..|asked| - 1], now, max, window);
      WithinAll(before, now - window, now);
    }
  }
}
