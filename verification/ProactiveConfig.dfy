/**
 * The last-good reload of apps/assistant/src/proactive/proactive-config.service.ts. A
 * configuration is its JSON text, which is what the source compares.
 */
module ProactiveConfig {
  import opened Common

  datatype Config = Config(json: string)

  datatype Change = Change(next: Config, prev: Option<Config>)

  class Listener {
    var heard: seq<Change>

    constructor ()
      ensures heard == []
    {
      heard := [];
    }

    method Hear(change: Change)
      modifies this
      ensures heard == old(heard) + [change]
    {
      heard := heard + [change];
    }
  }

  /** What `loadOnce` comes to: a parsed configuration, or the reason there is none. */
  type Load = Result<Config, string>

  // ------------------------------------------------------------------ specification

  /** The configurations that parsed, in order. */
  function Valids(loads: seq<Load>): seq<Config> {
    if loads == [] then []
    else
      var n := |loads| - 1;
      Valids(loads[..n]) + if loads[n].Ok? then [loads[n].value] else []
  }

  /** Without the repetitions of what came just before. */
  function Destutter(xs: seq<Config>): seq<Config> {
    if |xs| <= 1 then xs
    else
      var n := |xs| - 1;
      Destutter(xs[..n]) + if xs[n] == xs[n - 1] then [] else [xs[n]]
  }

  /** Each with the one it replaces. */
  function Changes(xs: seq<Config>): (r: seq<Change>)
    ensures |r| == |xs|
    ensures xs != [] ==> r[0] == Change(xs[0], None)
  {
    if xs == [] then []
    else
      var n := |xs| - 1;
      Changes(xs[..n]) + [Change(xs[n], if n == 0 then None else Some(xs[n - 1]))]
  }

  /** The last announcement is the latest configuration. */
  lemma {:induction false} LatestIsAnnounced(xs: seq<Config>)
    requires xs != []
    ensures Destutter(xs) != [] && Destutter(xs)[|Destutter(xs)| - 1] == xs[|xs| - 1]
  {
    if |xs| <= 1 {
    } else {
      LatestIsAnnounced(xs[..|xs| - 1]);
    }
  }

  /** Nothing is announced twice in a row. */
  lemma {:induction false} AnnouncementsDiffer(xs: seq<Config>)
    ensures forall i :: 0 < i < |Destutter(xs)| ==> Destutter(xs)[i] != Destutter(xs)[i - 1]
  {
    if |xs| <= 1 {
    } else {
      var n := |xs| - 1;
      AnnouncementsDiffer(xs[..n]);
      LatestIsAnnounced(xs[..n]);
    }
  }

  /** Every configuration is announced, and no other. */
  lemma {:induction false} EveryConfigIsAnnounced(xs: seq<Config>, x: Config)
    ensures x in Destutter(xs) <==> x in xs
  {
    if |xs| <= 1 {
    } else {
      var n := |xs| - 1;
      EveryConfigIsAnnounced(xs[..n], x);
      assert xs == xs[..n] + [xs[n]];
      assert xs[n - 1] in xs[..n];
    }
  }

  lemma ChangesSnoc(xs: seq<Config>, x: Config)
    requires xs != []
    ensures Changes(xs + [x]) == Changes(xs) + [Change(x, Some(xs[|xs| - 1]))]
  {
    assert (xs + [x])[..|xs|] == xs;
  }

  function Announced(current: Config, next: Config): seq<Change> {
    if next == current then [] else [Change(next, Some(current))]
  }

  /** What listeners are to hear of a sequence of valid configurations, one after the other. */
  function Announcements(xs: seq<Config>): (r: seq<Change>)
    ensures xs != [] ==> r != [] && r[0] == Change(xs[0], None)
  {
    if xs == [] then []
    else if |xs| == 1 then [Change(xs[0], None)]
    else
      var n := |xs| - 1;
      Announcements(xs[..n]) + Announced(xs[n - 1], xs[n])
  }

  lemma AnnouncedSnoc(said: seq<Config>, last: Config, x: Config, all: seq<Config>)
    requires said != [] && said[|said| - 1] == last
    requires all == if x == last then said else said + [x]
    ensures Changes(all) == Changes(said) + Announced(last, x)
  {
    if x == last {
      assert Changes(said) + [] == Changes(said);
    } else {
      ChangesSnoc(said, x);
    }
  }

  lemma DestutterStep(xs: seq<Config>)
    requires |xs| > 1
    ensures
      var n := |xs| - 1;
      var said := Destutter(xs[..n]);
      Destutter(xs) == if xs[n] == xs[n - 1] then said else said + [xs[n]]
  {
    var said := Destutter(xs[..|xs| - 1]);
    assert said + [] == said;
  }

  /** They hear the sequence without repetitions, each configuration with the one it replaces. */
  lemma {:induction false} AnnouncementsAreChanges(xs: seq<Config>)
    ensures Announcements(xs) == Changes(Destutter(xs))
  {
    if |xs| <= 1 {
    } else {
      var n := |xs| - 1;
      AnnouncementsAreChanges(xs[..n]);
      LatestIsAnnounced(xs[..n]);
      DestutterStep(xs);
      AnnouncedSnoc(Destutter(xs[..n]), xs[n - 1], xs[n], Destutter(xs));
    }
  }

  /** What one more load adds to the announcements. */
  function News(current: Config, load: Load): seq<Change> {
    if load.Err? then [] else Announced(current, load.value)
  }

  /** One more load is announced exactly when it is valid and differs from the current configuration. */
  lemma OneMore(loads: seq<Load>, load: Load)
    requires Valids(loads) != []
    ensures
      var before, after := Valids(loads), Valids(loads + [load]);
      && after == before + (if load.Ok? then [load.value] else [])
      && Announcements(after) == Announcements(before) + News(before[|before| - 1], load)
  {
    var before, after := Valids(loads), Valids(loads + [load]);
    assert (loads + [load])[..|loads|] == loads;
    if load.Ok? {
      assert after[..|before|] == before;
    } else {
      assert after == before && Announcements(before) + [] == Announcements(before);
    }
  }

  lemma {:induction false} ValidsKeepsFirst(initial: Config, loads: seq<Load>)
    ensures Valids([Ok(initial)] + loads) != [] && Valids([Ok(initial)] + loads)[0] == initial
  {
    var all: seq<Load> := [Ok(initial)] + loads;
    if loads == [] {
      assert all == [Ok(initial)] && all[..0] == [];
    } else {
      ValidsKeepsFirst(initial, loads[..|loads| - 1]);
      assert all[..|all| - 1] == [Ok(initial)] + loads[..|loads| - 1];
    }
  }

  /** Between two refreshes: `said` is what there was to announce after the first configuration. */
  ghost predicate Polled(seen: seq<Load>, first: Config, said: seq<Change>, current: Option<Config>) {
    && Valids(seen) != [] && current == Some(Valids(seen)[|Valids(seen)| - 1])
    && Announcements(Valids(seen)) == [Change(first, None)] + said
  }

  lemma PollStep(seen: seq<Load>, first: Config, said: seq<Change>, current: Config, load: Load)
    requires Polled(seen, first, said, Some(current))
    ensures Polled(seen + [load], first, said + News(current, load), Some(if load.Ok? then load.value else current))
  {
    OneMore(seen, load);
    assert [Change(first, None)] + said + News(current, load) == [Change(first, None)] + (said + News(current, load));
  }

  // ------------------------------------------------------------------ the service

  class Service {
    var current: Option<Config>
    var listeners: seq<Listener>

    ghost predicate Valid()
      reads this
    {
      forall i, j :: 0 <= i < j < |listeners| ==> listeners[i] != listeners[j]
    }

    constructor ()
      ensures Valid() && current == None && listeners == []
    {
      current, listeners := None, [];
    }

    /** A set of listeners: adding one twice has no effect. */
    method OnChange(listener: Listener)
      requires Valid()
      modifies this`listeners
      ensures Valid()
      ensures listeners == if listener in old(listeners) then old(listeners) else old(listeners) + [listener]
    {
      if listener !in listeners { listeners := listeners + [listener]; }
    }

    /** Every listener hears of the change once; what one throws reaches no other. */
    method Notify(next: Config)
      requires Valid()
      modifies this`current, listeners
      ensures Valid() && current == Some(next)
      ensures forall l :: l in listeners ==> l.heard == old(l.heard) + [Change(next, old(current))]
    {
      var prev := current;
      current := Some(next);
      for i := 0 to |listeners|
        invariant current == Some(next)
        invariant forall j :: 0 <= j < i ==> listeners[j].heard == old(listeners[j].heard) + [Change(next, prev)]
        invariant forall j :: i <= j < |listeners| ==> listeners[j].heard == old(listeners[j].heard)
      {
        listeners[i].Hear(Change(next, prev));
      }
    }

    /** A configuration that does not load or equals the current one changes nothing. */
    method Refresh(load: Load)
      requires Valid()
      modifies this`current, listeners
      ensures Valid()
      ensures load.Err? || Some(load.value) == old(current) ==>
                current == old(current) && forall l :: l in listeners ==> l.heard == old(l.heard)
      ensures load.Ok? && Some(load.value) != old(current) ==>
                current == Some(load.value)
                && forall l :: l in listeners ==> l.heard == old(l.heard) + [Change(load.value, old(current))]
    {
      if load.Err? || current == Some(load.value) { return; }
      Notify(load.value);
    }

    /**
     * Refreshes of the timer, from wherever the service stands: the snapshot is the last
     * configuration that parsed, and whoever listens, since the start or only from here on,
     * hears every valid one that differs from the one before, each with the one it replaces.
     */
    method Poll(loads: seq<Load>)
      requires Valid() && current.Some?
      modifies this`current, listeners
      ensures
        var valids := Valids([Ok(old(current).value)] + loads);
        && Valid() && valids != [] && current == Some(valids[|valids| - 1])
        && |Announcements(valids)| > 0
        && forall l :: l in listeners ==> l.heard == old(l.heard) + Announcements(valids)[1..]
    {
      ghost var first := current.value;
      ghost var seen: seq<Load>, said: seq<Change> := [Ok(first)], [];
      assert seen[..0] == [];
      for i := 0 to |loads|
        invariant Valid() && current.Some? && seen == [Ok(first)] + loads[..i]
        invariant Polled(seen, first, said, current)
        invariant forall l :: l in listeners ==> l.heard == old(l.heard) + said
      {
        PollStep(seen, first, said, current.value, loads[i]);
        ghost var news := News(current.value, loads[i]);
        Refresh(loads[i]);
        forall l | l in listeners ensures l.heard == old(l.heard) + (said + news) {
          assert l.heard == old(l.heard) + said + news;
        }
        seen, said := seen + [loads[i]], said + news;
      }
      assert loads[..|loads|] == loads;
    }

    /** `start` and then the refreshes, for the listeners that were there from the beginning. */
    method Run(initial: Config, loads: seq<Load>)
      requires Valid() && current == None
      modifies this`current, listeners
      ensures
        var valids := Valids([Ok(initial)] + loads);
        && valids != [] && current == Some(valids[|valids| - 1])
        && forall l :: l in listeners ==> l.heard == old(l.heard) + Announcements(valids)
    {
      Notify(initial);
      Poll(loads);
      ghost var all := Announcements(Valids([Ok(initial)] + loads));
      ValidsKeepsFirst(initial, loads);
      forall l | l in listeners ensures l.heard == old(l.heard) + all {
        assert l.heard == old(l.heard) + [all[0]] + all[1..];
      }
    }
  }
}
