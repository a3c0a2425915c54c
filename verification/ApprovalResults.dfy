/** What the approval pipeline promises, over every run. */
module ApprovalResults {
  import opened Common
  import opened RedisStore
  import opened Callback
  import opened Approval
  import opened ApprovalInvariant

  lemma {:induction false} RunKeepsInv(s: State, actions: seq<Action>)
    requires Inv(s) && Runs(s, actions)
    ensures Inv(Run(s, actions))
    decreases |actions|
  {
    if actions == [] {
    } else {
      StepKeepsInv(s, actions[0]);
      RunKeepsInv(Step(s, actions[0]), actions[1..]);
    }
  }

  lemma ReachableInv(s: State)
    requires Reachable(s)
    ensures Inv(s)
  {
    var actions :| Runs(Init, actions) && Run(Init, actions) == s;
    RunKeepsInv(Init, actions);
  }

  /**
   * Every action the handler routes carries exactly the tool and payload stored at proposal,
   * follows an approving tap that won the claim before the proposal expired, and no proposal's
   * action is routed twice.
   */
  lemma RoutedActionsAreApproved(s: State, i: nat)
    requires Reachable(s) && i < |s.routed|
    ensures
      var r := s.routed[i];
      && r.uuid in s.proposals && r.uuid in s.won && r.tap in s.taps
      && r.intent == "/" + s.proposals[r.uuid].envelope.tool
      && Some(r.payload) == s.proposals[r.uuid].envelope.payload
      && s.taps[r.tap].uuid == r.uuid && s.taps[r.tap].decision == Approve
      && s.won[r.uuid].tap == r.tap && s.won[r.uuid].at < s.proposals[r.uuid].expires
    ensures forall j :: 0 <= j < |s.routed| && s.routed[j].uuid == s.routed[i].uuid ==> j == i
  {
    ReachableInv(s);
    assert RoutedInv(s, i) && IdInv(s, s.routed[i].uuid);
  }

  /** A proposal that was rejected has not been and will not be acted on. */
  lemma RejectedNeverRuns(s: State, actions: seq<Action>, u: string, i: nat)
    requires Reachable(s) && u in s.won && s.won[u].decision == Reject
    requires Runs(s, actions) && i < |Run(s, actions).routed|
    ensures Run(s, actions).routed[i].uuid != u
  {
    ReachableInv(s);
    RunKeepsInv(s, actions);
    WinsAreFinal(s, actions, u);
    assert RoutedInv(Run(s, actions), i);
  }

  /** A proposal nobody decided in time has not been and will not be acted on. */
  lemma ExpiredNeverRuns(s: State, actions: seq<Action>, u: string, i: nat)
    requires Reachable(s) && u in s.proposals && u !in s.won && s.proposals[u].expires <= s.now
    requires Runs(s, actions) && i < |Run(s, actions).routed|
    ensures Run(s, actions).routed[i].uuid != u
  {
    ReachableInv(s);
    RunKeepsInv(s, actions);
    ExpiredIsFinal(s, actions, u);
    assert RoutedInv(Run(s, actions), i);
  }

  lemma {:induction false} WinsAreFinal(s: State, actions: seq<Action>, u: string)
    requires Inv(s) && Runs(s, actions) && u in s.won
    ensures u in Run(s, actions).won && Run(s, actions).won[u] == s.won[u]
    decreases |actions|
  {
    if actions == [] {
    } else {
      if actions[0].Eval? { ClaimKeeps(s, actions[0].tap, u); }
      StepKeepsInv(s, actions[0]);
      WinsAreFinal(Step(s, actions[0]), actions[1..], u);
    }
  }

  lemma ExpiredStays(s: State, a: Action, u: string)
    requires Inv(s) && Enabled(s, a)
    requires u in s.proposals && u !in s.won && s.proposals[u].expires <= s.now
    ensures
      var t := Step(s, a);
      u in t.proposals && u !in t.won && t.proposals[u].expires <= t.now
  {
    if a.Eval? { assert TapInv(s, a.tap) && IdInv(s, s.taps[a.tap].uuid); }
  }

  lemma {:induction false} ExpiredIsFinal(s: State, actions: seq<Action>, u: string)
    requires Inv(s) && Runs(s, actions)
    requires u in s.proposals && u !in s.won && s.proposals[u].expires <= s.now
    ensures u !in Run(s, actions).won
    decreases |actions|
  {
    if actions == [] {
    } else {
      StepKeepsInv(s, actions[0]);
      ExpiredStays(s, actions[0], u);
      ExpiredIsFinal(Step(s, actions[0]), actions[1..], u);
    }
  }

  /**
   * An id's envelope and claim never coexist, so the script never answers "already", and once
   * an id is decided every further tap on it is answered "expired".
   */
  lemma AlreadyIsUnreachable(s: State, u: string)
    requires Reachable(s) && IsUuid(u)
    ensures !(EnvelopeKey(u) in s.store && ClaimKey(u) in s.store)
    ensures ClaimOutcome(s.store, s.now, u) != Already
    ensures u in s.won ==> ClaimOutcome(s.store, s.now, u) == Expired
  {
    ReachableInv(s);
    assert IdInv(s, u);
  }

  /** The handler never answers "already decided", over every run. */
  lemma NobodyIsToldAlready(actions: seq<Action>, id: nat)
    requires Runs(Init, actions) && id in Run(Init, actions).taps
    ensures Run(Init, actions).taps[id].phase != Done(SaidAlready)
  {
    RunTellsNobody(Init, actions);
  }

  /** The claim of an id is taken exactly when it was stored, is undecided and has time left. */
  lemma TakenIff(s: State, u: string)
    requires Reachable(s) && IsUuid(u)
    ensures ClaimOutcome(s.store, s.now, u) == Taken <==>
            EnvelopeKey(u) in s.store && u in s.proposals && u !in s.won && s.now < s.proposals[u].expires
  {
    ReachableInv(s);
    assert IdInv(s, u);
  }

  // ------------------------------------------------------------------ when a winner is routed

  /** The read that follows a win finds the proposed envelope exactly while the record lives. */
  lemma WinnerReads(s: State, id: nat)
    requires Reachable(s) && Enabled(s, Read(id, true))
    ensures s.taps[id].uuid in s.won && s.taps[id].uuid in s.proposals
    ensures
      var u := s.taps[id].uuid;
      Step(s, Read(id, true)).taps[id].phase ==
      Deciding(if s.now < s.won[u].at + 86_400 then Some(s.proposals[u].envelope) else None)
  {
    ReachableInv(s);
    var u := s.taps[id].uuid;
    assert TapInv(s, id) && IdInv(s, u);
    var actions :| Runs(Init, actions) && Run(Init, actions) == s;
    RunKeepsRecord(Init, actions, u);
  }

  /**
   * `end` is a state the tap can come to after reading at `s`: still about to decide, or done,
   * and then by routing its action exactly when it approved, came within a day of its win, and
   * the proposal carried a payload.
   */
  ghost predicate EndsAsDeserved(s: State, id: nat, end: State)
    requires id in s.taps
  {
    var t, u := s.taps[id], s.taps[id].uuid;
    var deserved :=
      && t.decision == Approve && u in s.won && s.now < s.won[u].at + 86_400
      && u in s.proposals && s.proposals[u].envelope.payload.Some?;
    && id in end.taps && (end.taps[id].phase.Deciding? || end.taps[id].phase.Done?)
    && (end.taps[id].phase.Done? ==> (end.taps[id].phase == Done(DidRoute) <==> deserved))
    && (end.taps[id].phase == Done(DidRoute) ==> exists i :: 0 <= i < |end.routed| && end.routed[i].tap == id)
  }

  /**
   * In every run, a tap that won the claim and reads the record ends as it deserves, whatever
   * else is interleaved before and after.
   */
  lemma WinnersAreRoutedIff(before: seq<Action>, id: nat, actions: seq<Action>)
    ensures
      Runs(Init, before) && Enabled(Run(Init, before), Read(id, true))
      && Runs(Step(Run(Init, before), Read(id, true)), actions) ==>
        EndsAsDeserved(Run(Init, before), id, Run(Step(Run(Init, before), Read(id, true)), actions))
  {
    if Runs(Init, before) && Enabled(Run(Init, before), Read(id, true)) {
      var s := Run(Init, before);
      WinnerReads(s, id);
      var u, t := s.taps[id].uuid, Step(s, Read(id, true));
      var envelope := if s.now < s.won[u].at + CLAIM_TTL then Some(s.proposals[u].envelope) else None;
      assert t.taps[id].decision == s.taps[id].decision;
      if Runs(t, actions) { RunKeepsSealed(t, actions, id, s.taps[id].decision, envelope); }
    }
  }

  // ------------------------------------------------------------------ what each tap is told

  /** Of an answered claim: a tap that comes too late is told so, one that was decided is told that, a winner reads on. */
  lemma EvalAnswers(s: State, id: nat)
    requires Enabled(s, Eval(id, Replied)) && s.scriptLoaded
    ensures
      var phase, u := Step(s, Eval(id, Replied)).taps[id].phase, s.taps[id].uuid;
      && (phase == Done(SaidExpired) <==> !Live(s.store, s.now, EnvelopeKey(u)))
      && (phase == Done(SaidAlready) <==> Live(s.store, s.now, EnvelopeKey(u)) && Live(s.store, s.now, ClaimKey(u)))
      && (phase == Reading <==> Live(s.store, s.now, EnvelopeKey(u)) && !Live(s.store, s.now, ClaimKey(u)))
  {
  }

  /** In every run, a tap that comes when its id is undecided no more is told it is too late, and nothing else of it happens. */
  lemma LateTapIsToldSo(s: State, id: nat)
    requires Reachable(s) && Enabled(s, Eval(id, Replied)) && s.scriptLoaded
    requires s.taps[id].uuid in s.won || s.taps[id].uuid !in s.proposals || s.proposals[s.taps[id].uuid].expires <= s.now
    ensures Step(s, Eval(id, Replied)) == s.(taps := s.taps[id := s.taps[id].(phase := Done(SaidExpired))])
  {
    ReachableInv(s);
    assert TapInv(s, id) && IdInv(s, s.taps[id].uuid);
  }

  /** In every run, whoever is told that the action ran had it routed, and the other way round. */
  lemma RoutedIsTold(actions: seq<Action>, id: nat)
    requires Runs(Init, actions)
    ensures TellsTruth(Run(Init, actions), id)
  {
    RunTellsTruth(Init, actions, id);
  }

  /** How long a proposal stands: whole seconds of its timeout, at least one. */
  lemma ProposalStands(s: State, uuid: string, e: Envelope, at: int)
    requires Enabled(s, Propose(uuid, e, true))
    ensures
      var t := Step(s, Propose(uuid, e, true));
      Live(t.store, at, EnvelopeKey(uuid)) <==>
      at - s.now < 1 || (at - s.now + 1) * 1000 <= e.timeoutMs
  {
  }
}
