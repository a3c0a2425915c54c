/** The verdict of scripts/ci/deploy-lag-watchdog.py: `run`, its newest-first walk and its dating. */
module Watchdog {
  import opened Common

  /** An image-input commit: the digest of its tree (None if it has none) and its committer time. */
  datatype Commit = Commit(digest: Option<string>, time: int)

  datatype Verdict = PassDeployed | PassPending | FailUnknownBuild | FailLag | FailCouldNotProve

  predicate Passes(v: Verdict) {
    v.PassDeployed? || v.PassPending?
  }

  /** What one run of the watchdog sees; `history` is newest first, `running` None when /health does not say. */
  datatype Scene = Scene(
    checkout: Option<string>,
    running: Option<string>,
    history: seq<Commit>,
    now: real,
    maxLag: int,
    maxWalk: nat)

  /** `int(x)` truncates toward zero. */
  function Truncate(x: real): int {
    if x >= 0.0 then x.Floor else -((-x).Floor)
  }

  function Lag(now: real, time: int): int { Truncate(now - time as real) }

  /** No more than `limit` whole seconds have passed. */
  predicate NoOlderThan(now: real, time: int, limit: int) {
    if limit >= 0 then now - time as real < (limit + 1) as real else now - time as real <= limit as real
  }

  lemma LagIff(now: real, time: int, limit: int)
    ensures Lag(now, time) <= limit <==> NoOlderThan(now, time, limit)
  {
    var x := now - time as real;
    if x >= 0.0 {
      assert x.Floor as real <= x < (x.Floor + 1) as real;
    } else {
      assert (-x).Floor as real <= -x < ((-x).Floor + 1) as real;
    }
  }

  /** `git log -<max_walk>` */
  function Walked(scene: Scene): seq<Commit> {
    scene.history[..Min(scene.maxWalk, |scene.history|)]
  }

  predicate Runs(c: Commit, digest: string) {
    c.digest == Some(digest)
  }

  /** The newest walked commit whose digest production reports; the length if there is none. */
  function Match(commits: seq<Commit>, running: string): (i: nat)
    ensures i <= |commits|
    ensures i < |commits| ==> Runs(commits[i], running)
    ensures forall j :: 0 <= j < i ==> !Runs(commits[j], running)
  {
    if commits == [] || Runs(commits[0], running) then 0 else 1 + Match(commits[1..], running)
  }

  /** The verdict, by the position of the match. */
  function VerdictOf(scene: Scene): Verdict {
    if scene.checkout.None? || scene.running.None? then FailCouldNotProve
    else if scene.running == scene.checkout then PassDeployed
    else
      var commits := Walked(scene);
      var i := Match(commits, scene.running.value);
      if i == |commits| then FailUnknownBuild
      else if i == 0 then FailCouldNotProve
      else if Lag(scene.now, commits[i - 1].time) <= scene.maxLag then PassPending
      else FailLag
  }

  /** The `for ... else` loop of the source. */
  method Run(scene: Scene) returns (v: Verdict)
    ensures v == VerdictOf(scene)
  {
    if scene.checkout.None? { return FailCouldNotProve; }
    if scene.running.None? { return FailCouldNotProve; }
    if scene.running == scene.checkout { return PassDeployed; }
    var commits := Walked(scene);
    var running := scene.running.value;
    var oldestUndeployed: Option<Commit> := None;
    var i := 0;
    var broke := false;
    while i < |commits| && !broke
      invariant 0 <= i <= |commits|
      invariant forall j :: 0 <= j < i ==> !Runs(commits[j], running)
      invariant broke ==> i < |commits| && Runs(commits[i], running)
      invariant oldestUndeployed == if i == 0 then None else Some(commits[i - 1])
      decreases |commits| - i, !broke
    {
      if commits[i].digest == Some(running) {
        broke := true;
      } else {
        oldestUndeployed := Some(commits[i]);
        i := i + 1;
      }
    }
    assert Match(commits, running) == i;
    if !broke { return FailUnknownBuild; }
    if oldestUndeployed.None? { return FailCouldNotProve; }
    v := if Lag(scene.now, oldestUndeployed.value.time) <= scene.maxLag then PassPending else FailLag;
  }

  // ------------------------------------------------------------------ what PASS means

  /** The checkout is the newest image-input commit, and times do not increase with age. */
  ghost predicate Clean(scene: Scene) {
    && scene.history != [] && scene.checkout.Some? && scene.checkout == scene.history[0].digest
    && (forall i, j :: 0 <= i <= j < |scene.history| ==> scene.history[j].time <= scene.history[i].time)
  }

  /** Production runs the i-th newest commit, within the walk, and nothing newer is older than allowed. */
  ghost predicate DeployedRecently(scene: Scene, i: nat) {
    && scene.running.Some?
    && i < Min(scene.maxWalk, |scene.history|)
    && Runs(scene.history[i], scene.running.value)
    && forall j :: 0 <= j < i ==> NoOlderThan(scene.now, scene.history[j].time, scene.maxLag)
  }

  lemma OlderLagsMore(now: real, later: real, newer: int, older: int)
    requires now <= later && older <= newer
    ensures Lag(now, newer) <= Lag(later, older)
  {
  }

  /**
   * With a clean checkout the watchdog passes exactly when production runs the newest
   * image-input commit, or one within the walk with every newer commit at most `maxLag` old.
   */
  lemma PassIff(scene: Scene)
    requires Clean(scene)
    ensures Passes(VerdictOf(scene)) <==>
            (scene.running.Some? && Runs(scene.history[0], scene.running.value))
            || exists i :: DeployedRecently(scene, i)
  {
    if scene.running.Some? && scene.running != scene.checkout {
      var commits := Walked(scene);
      var i := Match(commits, scene.running.value);
      if 0 < i < |commits| && Lag(scene.now, commits[i - 1].time) <= scene.maxLag {
        forall j | 0 <= j < i ensures Lag(scene.now, scene.history[j].time) <= scene.maxLag {
          OlderLagsMore(scene.now, scene.now, scene.history[j].time, commits[i - 1].time);
        }
        assert DeployedRecently(scene, i);
      }
      if k: nat :| DeployedRecently(scene, k) {
        assert Runs(commits[k], scene.running.value) && i <= k;
        assert commits[i - 1] == scene.history[i - 1];
      }
    }
  }

  // ------------------------------------------------------------------ undeployed commits do not buy time

  /** Main moves on: `c` is pushed on top at a later time and production stays where it is. */
  function Pushed(scene: Scene, c: Commit, now: real): Scene {
    scene.(checkout := c.digest, history := [c] + scene.history, now := now)
  }

  /** A later push that production does not run. */
  predicate Undeployed(scene: Scene, c: Commit, now: real) {
    scene.now <= now && c.digest.Some? && c.digest != scene.running
  }

  /** Production runs the newest image-input commit. */
  predicate AtNewest(scene: Scene) {
    scene.running.Some? && scene.history != [] && Runs(scene.history[0], scene.running.value)
  }

  lemma MatchShifts(c: Commit, commits: seq<Commit>, running: string)
    requires !Runs(c, running)
    ensures Match([c] + commits, running) == 1 + Match(commits, running)
  {
    assert ([c] + commits)[1..] == commits;
  }

  lemma {:induction false} MatchInPrefix(commits: seq<Commit>, n: nat, running: string)
    requires n <= |commits|
    ensures Match(commits[..n], running) == Min(Match(commits, running), n)
  {
    if commits != [] && n > 0 && !Runs(commits[0], running) {
      assert commits[..n][1..] == commits[1..][..n - 1];
      MatchInPrefix(commits[1..], n - 1, running);
    }
  }

  /** The verdict by the position of the match in the whole history. */
  lemma PassByMatch(scene: Scene)
    requires scene.checkout.Some? && scene.running.Some?
    ensures
      var i := Match(scene.history, scene.running.value);
      Passes(VerdictOf(scene)) <==>
      scene.running == scene.checkout
      || (0 < i < Min(scene.maxWalk, |scene.history|) && NoOlderThan(scene.now, scene.history[i - 1].time, scene.maxLag))
  {
    MatchInPrefix(scene.history, Min(scene.maxWalk, |scene.history|), scene.running.value);
  }

  /**
   * When an undeployed push turns FAIL into PASS, whatever the checkout's digest: exactly when
   * production ran the newest commit, so that only the checkout was at odds with it, the walk
   * reaches past the push, and the push itself is not yet too old.
   */
  lemma PushFlipsIff(scene: Scene, c: Commit, now: real)
    requires scene.checkout.Some? && Undeployed(scene, c, now) && !Passes(VerdictOf(scene))
    ensures Passes(VerdictOf(Pushed(scene, c, now))) <==>
            AtNewest(scene) && scene.maxWalk >= 2 && NoOlderThan(now, c.time, scene.maxLag)
  {
    var after := Pushed(scene, c, now);
    if scene.running.Some? {
      PassByMatch(scene);
      PassByMatch(after);
      MatchShifts(c, scene.history, scene.running.value);
      var i := Match(scene.history, scene.running.value);
      if 0 < i < |scene.history| {
        OlderLagsMore(scene.now, now, scene.history[i - 1].time, scene.history[i - 1].time);
        assert after.history[i] == scene.history[i - 1];
      }
    }
  }

  /** A failing watchdog still fails after a push, even when the match leaves the walk. */
  lemma PushKeepsFailure(scene: Scene, c: Commit, now: real)
    requires scene.checkout.Some? && !AtNewest(scene) && Undeployed(scene, c, now)
    requires !Passes(VerdictOf(scene))
    ensures !Passes(VerdictOf(Pushed(scene, c, now))) && !AtNewest(Pushed(scene, c, now))
  {
    PushFlipsIff(scene, c, now);
  }

  datatype Push = Push(commit: Commit, now: real)

  function AfterPushes(scene: Scene, pushes: seq<Push>): Scene
    decreases |pushes|
  {
    if pushes == [] then scene else AfterPushes(Pushed(scene, pushes[0].commit, pushes[0].now), pushes[1..])
  }

  predicate AllUndeployed(scene: Scene, pushes: seq<Push>)
    decreases |pushes|
  {
    pushes == [] ||
    (Undeployed(scene, pushes[0].commit, pushes[0].now)
     && AllUndeployed(Pushed(scene, pushes[0].commit, pushes[0].now), pushes[1..]))
  }

  /** A trickle of undeployed commits, however long, never turns FAIL into PASS. */
  lemma {:induction false} TrickleNeverPasses(scene: Scene, pushes: seq<Push>)
    requires scene.checkout.Some? && !AtNewest(scene) && AllUndeployed(scene, pushes)
    requires !Passes(VerdictOf(scene))
    ensures !Passes(VerdictOf(AfterPushes(scene, pushes)))
    decreases |pushes|
  {
    if pushes == [] {
    } else {
      PushKeepsFailure(scene, pushes[0].commit, pushes[0].now);
      TrickleNeverPasses(Pushed(scene, pushes[0].commit, pushes[0].now), pushes[1..]);
    }
  }

  /** A clean checkout that fails does not have production at its newest commit. */
  lemma CleanFailureIsBehind(scene: Scene)
    requires Clean(scene) && !Passes(VerdictOf(scene))
    ensures !AtNewest(scene)
  {
    PassIff(scene);
  }
}
