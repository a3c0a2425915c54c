/**
 * What every step of the approval pipeline keeps: that the key space agrees with what was
 * proposed, won and expired; that what a tap has read is the proposal and what is routed was
 * won; that the record of a win stands for a day; that a tap which has read its record is past
 * being disturbed by anyone; and that what a tap is told is what became of it. Each is shown
 * for one step at a time, action by action; whole runs follow by induction.
 */
module ApprovalInvariant {
  import opened Common
  import opened RedisStore
  import opened Callback
  import opened Approval

  /** An id's envelope key is there only while it is undecided, its claim key only once it is. */
  ghost predicate IdInv(s: State, u: string) {
    && (IsUuid(u) && EnvelopeKey(u) in s.store ==>
          && u in s.proposals && u !in s.won
          && s.store[EnvelopeKey(u)] == Entry(EnvelopeJson(s.proposals[u].envelope), Some(s.proposals[u].expires)))
    && (IsUuid(u) && ClaimKey(u) in s.store ==>
          && u in s.proposals && u in s.won
          && s.store[ClaimKey(u)].value.ClaimJson?
          && s.store[ClaimKey(u)].value.record.envelope == s.proposals[u].envelope)
    && (u in s.won ==>
          && u in s.proposals && s.won[u].at < s.proposals[u].expires
          && s.won[u].tap in s.taps
          && s.taps[s.won[u].tap].uuid == u && s.taps[s.won[u].tap].decision == s.won[u].decision)
  }

  /** A tap past the claim is the one that won it, and has read what was proposed. */
  ghost predicate TapInv(s: State, id: nat) {
    id in s.taps ==>
      var t := s.taps[id];
      && IsUuid(t.uuid)
      && (t.phase.Reading? || t.phase.Deciding? ==> t.uuid in s.won && s.won[t.uuid].tap == id)
      && (t.phase.Deciding? && t.phase.envelope.Some? ==>
            t.uuid in s.proposals && t.phase.envelope.value == s.proposals[t.uuid].envelope)
  }

  ghost predicate RoutedInv(s: State, i: nat) {
    i < |s.routed| ==>
      var r := s.routed[i];
      && r.uuid in s.won && r.uuid in s.proposals
      && s.won[r.uuid].tap == r.tap && s.won[r.uuid].decision == Approve
      && r.tap in s.taps && s.taps[r.tap].phase.Done?
      && r.intent == Intent(s.proposals[r.uuid].envelope.tool)
      && Some(r.payload) == s.proposals[r.uuid].envelope.payload
  }

  ghost predicate RoutedOnce(s: State) {
    forall i, j :: 0 <= i < j < |s.routed| ==> s.routed[i].uuid != s.routed[j].uuid
  }

  ghost predicate Inv(s: State) {
    && (forall u :: IdInv(s, u))
    && (forall id :: TapInv(s, id))
    && (forall i :: RoutedInv(s, i))
    && RoutedOnce(s)
  }

  lemma ProposeKeeps(s: State, uuid: string, e: Envelope, stored: bool, u: string, id: nat, i: nat)
    requires Inv(s) && Enabled(s, Propose(uuid, e, stored))
    ensures
      var t := ProposeStep(s, uuid, e, stored);
      IdInv(t, u) && TapInv(t, id) && RoutedInv(t, i)
  {
    KeysAreDistinct(uuid, u);
    KeysAreDistinct(u, uuid);
    assert IdInv(s, u) && IdInv(s, uuid) && TapInv(s, id) && RoutedInv(s, i);
  }

  /** The script, whoever runs it, and whatever becomes of its reply. */
  lemma ClaimKeeps(s: State, id: nat, u: string)
    requires Inv(s) && In(s, id, {Evaluating, Retrying})
    ensures IdInv(Claimed(s, id), u)
    ensures u in s.won ==> Claimed(s, id).won[u] == s.won[u]
    ensures ClaimOutcome(s.store, s.now, s.taps[id].uuid) == Taken ==>
              s.taps[id].uuid in Claimed(s, id).won && Claimed(s, id).won[s.taps[id].uuid].tap == id
    ensures Claimed(s, id).won.Keys >= s.won.Keys
  {
    var t := s.taps[id];
    KeysAreDistinct(t.uuid, u);
    KeysAreDistinct(u, t.uuid);
    assert IdInv(s, u) && IdInv(s, t.uuid) && TapInv(s, id);
  }

  lemma EvalKeepsId(s: State, id: nat, fate: Fate, u: string)
    requires Inv(s) && Enabled(s, Eval(id, fate))
    ensures IdInv(EvalStep(s, id, fate), u)
  {
    assert IdInv(s, u);
    ClaimKeeps(s, id, u);
  }

  lemma EvalKeepsTap(s: State, id: nat, fate: Fate, other: nat)
    requires Inv(s) && Enabled(s, Eval(id, fate))
    ensures TapInv(EvalStep(s, id, fate), other)
  {
    assert TapInv(s, id) && TapInv(s, other);
    if other in s.taps { ClaimKeeps(s, id, s.taps[other].uuid); }
  }

  lemma EvalKeepsRouted(s: State, id: nat, fate: Fate, i: nat)
    requires Inv(s) && Enabled(s, Eval(id, fate))
    ensures RoutedInv(EvalStep(s, id, fate), i)
  {
    assert RoutedInv(s, i);
    if i < |s.routed| { ClaimKeeps(s, id, s.routed[i].uuid); }
  }

  lemma ReadKeeps(s: State, id: nat, ok: bool, u: string, other: nat, i: nat)
    requires Inv(s) && Enabled(s, Read(id, ok))
    ensures
      var t := ReadStep(s, id, ok);
      IdInv(t, u) && TapInv(t, other) && RoutedInv(t, i)
  {
    assert IdInv(s, u) && IdInv(s, s.taps[id].uuid) && TapInv(s, id) && TapInv(s, other) && RoutedInv(s, i);
  }

  lemma DecideKeeps(s: State, id: nat, u: string, other: nat)
    requires Inv(s) && Enabled(s, Decide(id))
    ensures
      var t := DecideStep(s, id);
      IdInv(t, u) && TapInv(t, other)
  {
    assert IdInv(s, u) && TapInv(s, id) && TapInv(s, other);
  }

  lemma DecideKeepsRouted(s: State, id: nat, i: nat)
    requires Inv(s) && Enabled(s, Decide(id))
    ensures RoutedInv(DecideStep(s, id), i)
  {
    assert IdInv(s, s.taps[id].uuid) && TapInv(s, id) && RoutedInv(s, i);
  }

  /** The winner still deciding has not been routed, so routing it now is the first time. */
  lemma DecideKeepsOnce(s: State, id: nat)
    requires Inv(s) && Enabled(s, Decide(id))
    ensures RoutedOnce(DecideStep(s, id))
  {
    assert TapInv(s, id);
    forall i | 0 <= i < |s.routed| ensures s.routed[i].uuid != s.taps[id].uuid {
      assert RoutedInv(s, i);
    }
  }

  /** Steps that touch neither the key space nor the history. */
  lemma TapKeeps(s: State, x: nat, data: string, who: string, warm: bool, u: string, id: nat, i: nat)
    requires Inv(s) && Enabled(s, TapArrives(x, data, who, warm))
    ensures
      var t := TapStep(s, x, data, who, warm);
      IdInv(t, u) && TapInv(t, id) && RoutedInv(t, i)
  {
    assert IdInv(s, u) && TapInv(s, id) && RoutedInv(s, i);
  }

  lemma LoadKeeps(s: State, x: nat, ok: bool, u: string, id: nat, i: nat)
    requires Inv(s) && Enabled(s, Load(x, ok))
    ensures IdInv(LoadStep(s, x, ok), u) && TapInv(LoadStep(s, x, ok), id) && RoutedInv(LoadStep(s, x, ok), i)
  {
    assert IdInv(s, u) && TapInv(s, x) && TapInv(s, id) && RoutedInv(s, i);
  }

  lemma QuietKeeps(s: State, a: Action, u: string, id: nat, i: nat)
    requires Inv(s) && Enabled(s, a) && (a.Tick? || a.FlushScripts?)
    ensures IdInv(Step(s, a), u) && TapInv(Step(s, a), id) && RoutedInv(Step(s, a), i)
  {
    assert IdInv(s, u) && TapInv(s, id) && RoutedInv(s, i);
  }

  lemma StepKeeps(s: State, a: Action, u: string, id: nat, i: nat)
    requires Inv(s) && Enabled(s, a)
    ensures IdInv(Step(s, a), u) && TapInv(Step(s, a), id) && RoutedInv(Step(s, a), i)
  {
    match a
    case Propose(uuid, e, stored) => ProposeKeeps(s, uuid, e, stored, u, id, i);
    case Eval(x, fate) =>
      EvalKeepsId(s, x, fate, u);
      EvalKeepsTap(s, x, fate, id);
      EvalKeepsRouted(s, x, fate, i);
    case Read(x, ok) => ReadKeeps(s, x, ok, u, id, i);
    case Decide(x) => DecideKeeps(s, x, u, id); DecideKeepsRouted(s, x, i);
    case TapArrives(x, data, who, warm) => TapKeeps(s, x, data, who, warm, u, id, i);
    case Load(x, ok) => LoadKeeps(s, x, ok, u, id, i);
    case _ => QuietKeeps(s, a, u, id, i);
  }

  lemma StepKeepsInv(s: State, a: Action)
    requires Inv(s) && Enabled(s, a)
    ensures Inv(Step(s, a))
  {
    forall u ensures IdInv(Step(s, a), u) { StepKeeps(s, a, u, 0, 0); }
    forall id ensures TapInv(Step(s, a), id) { StepKeeps(s, a, "", id, 0); }
    forall i ensures RoutedInv(Step(s, a), i) { StepKeeps(s, a, "", 0, i); }
    if a.Decide? { DecideKeepsOnce(s, a.tap); }
  }

  // ------------------------------------------------------------------ the record of a win

  /** A won id keeps its claim record, which lives for a day from the win. */
  ghost predicate RecordInv(s: State, u: string) {
    IsUuid(u) && u in s.won ==>
      ClaimKey(u) in s.store && s.store[ClaimKey(u)].expires == Some(s.won[u].at + CLAIM_TTL)
  }

  lemma ClaimKeepsRecord(s: State, id: nat, u: string)
    requires Inv(s) && In(s, id, {Evaluating, Retrying}) && RecordInv(s, u)
    ensures RecordInv(Claimed(s, id), u)
  {
    var t := s.taps[id];
    KeysAreDistinct(t.uuid, u);
    KeysAreDistinct(u, t.uuid);
    assert IdInv(s, u) && IdInv(s, t.uuid) && TapInv(s, id);
  }

  lemma StepKeepsRecord(s: State, a: Action, u: string)
    requires Inv(s) && Enabled(s, a) && RecordInv(s, u)
    ensures RecordInv(Step(s, a), u)
  {
    match a
    case Propose(uuid, _, _) => KeysAreDistinct(uuid, u);
    case Eval(id, _) => ClaimKeepsRecord(s, id, u);
    case _ =>
  }

  lemma {:induction false} RunKeepsRecord(s: State, actions: seq<Action>, u: string)
    requires Inv(s) && Runs(s, actions) && RecordInv(s, u)
    ensures RecordInv(Run(s, actions), u)
    decreases |actions|
  {
    if actions == [] {
    } else {
      StepKeepsInv(s, actions[0]);
      StepKeepsRecord(s, actions[0], u);
      RunKeepsRecord(Step(s, actions[0]), actions[1..], u);
    }
  }

  // ------------------------------------------------------------------ a tap that has read its record

  /** What the handler makes of a decision and the envelope it read. */
  function AnswerTo(decision: Decision, envelope: Option<Envelope>): Answer {
    if decision == Reject then SaidRejected
    else if envelope.None? || envelope.value.payload.None? then SaidNoData
    else DidRoute
  }

  /** A tap that has read its envelope: it will answer accordingly, or has, and then acted accordingly. */
  ghost predicate Sealed(s: State, id: nat, decision: Decision, envelope: Option<Envelope>) {
    && id in s.taps && s.taps[id].decision == decision
    && (s.taps[id].phase == Deciding(envelope)
        || (s.taps[id].phase == Done(AnswerTo(decision, envelope))
            && (AnswerTo(decision, envelope) == DidRoute ==> exists i :: 0 <= i < |s.routed| && s.routed[i].tap == id)))
  }

  /** A step for one tap leaves the others, and what was routed, as they were. */
  lemma EvalLeavesTap(s: State, x: nat, fate: Fate, id: nat)
    requires x in s.taps && id in s.taps && id != x
    ensures id in EvalStep(s, x, fate).taps && EvalStep(s, x, fate).taps[id] == s.taps[id]
    ensures EvalStep(s, x, fate).routed == s.routed
  {
  }

  lemma ReadLeavesTap(s: State, x: nat, ok: bool, id: nat)
    requires x in s.taps && id in s.taps && id != x
    ensures id in ReadStep(s, x, ok).taps && ReadStep(s, x, ok).taps[id] == s.taps[id]
    ensures ReadStep(s, x, ok).routed == s.routed
  {
  }

  lemma DecideLeavesTap(s: State, x: nat, id: nat)
    requires Enabled(s, Decide(x)) && id in s.taps && id != x
    ensures id in DecideStep(s, x).taps && DecideStep(s, x).taps[id] == s.taps[id]
    ensures s.routed <= DecideStep(s, x).routed
  {
  }

  /** A tap that is past its commands moves by its own decision alone, and nothing routed is taken back. */
  lemma OthersLeaveTap(s: State, a: Action, id: nat)
    requires Enabled(s, a) && id in s.taps && (s.taps[id].phase.Deciding? || s.taps[id].phase.Done?)
    requires a != Decide(id)
    ensures id in Step(s, a).taps && Step(s, a).taps[id] == s.taps[id] && s.routed <= Step(s, a).routed
  {
    match a
    case Eval(x, fate) => EvalLeavesTap(s, x, fate, id);
    case Read(x, ok) => ReadLeavesTap(s, x, ok, id);
    case Decide(x) => DecideLeavesTap(s, x, id);
    case _ =>
  }

  lemma DecisionSeals(s: State, id: nat, envelope: Option<Envelope>)
    requires id in s.taps && s.taps[id].phase == Deciding(envelope)
    ensures Sealed(DecideStep(s, id), id, s.taps[id].decision, envelope)
  {
    var t := DecideStep(s, id);
    if AnswerTo(s.taps[id].decision, envelope) == DidRoute {
      assert t.routed[|s.routed|].tap == id;
    }
  }

  lemma StepKeepsSealed(s: State, a: Action, id: nat, decision: Decision, envelope: Option<Envelope>)
    requires Enabled(s, a) && Sealed(s, id, decision, envelope)
    ensures Sealed(Step(s, a), id, decision, envelope)
  {
    if a == Decide(id) {
      DecisionSeals(s, id, envelope);
    } else {
      OthersLeaveTap(s, a, id);
      if i :| 0 <= i < |s.routed| && s.routed[i].tap == id {
        assert Step(s, a).routed[i] == s.routed[i];
      }
    }
  }

  lemma {:induction false} RunKeepsSealed(s: State, actions: seq<Action>, id: nat, decision: Decision, envelope: Option<Envelope>)
    requires Runs(s, actions) && Sealed(s, id, decision, envelope)
    ensures Sealed(Run(s, actions), id, decision, envelope)
    decreases |actions|
  {
    if actions == [] {
    } else {
      StepKeepsSealed(s, actions[0], id, decision, envelope);
      RunKeepsSealed(Step(s, actions[0]), actions[1..], id, decision, envelope);
    }
  }

  // ------------------------------------------------------------------ what each tap is told

  ghost predicate NobodyTold(s: State) {
    forall id :: id in s.taps ==> s.taps[id].phase != Done(SaidAlready)
  }

  lemma StepTellsNobody(s: State, a: Action)
    requires Inv(s) && Enabled(s, a) && NobodyTold(s)
    ensures NobodyTold(Step(s, a))
  {
    if a.Eval? {
      assert TapInv(s, a.tap) && IdInv(s, s.taps[a.tap].uuid);
      assert ClaimOutcome(s.store, s.now, s.taps[a.tap].uuid) != Already;
    }
  }

  lemma {:induction false} RunTellsNobody(s: State, actions: seq<Action>)
    requires Inv(s) && Runs(s, actions) && NobodyTold(s)
    ensures NobodyTold(Run(s, actions))
    decreases |actions|
  {
    if actions == [] {
    } else {
      StepTellsNobody(s, actions[0]);
      StepKeepsInv(s, actions[0]);
      RunTellsNobody(Step(s, actions[0]), actions[1..]);
    }
  }

  /** A tap is told that its action ran exactly when it was routed. */
  ghost predicate TellsTruth(s: State, id: nat) {
    (id in s.taps && s.taps[id].phase == Done(DidRoute)) <==> exists i :: 0 <= i < |s.routed| && s.routed[i].tap == id
  }

  lemma DecideTellsTruth(s: State, x: nat, id: nat)
    requires Enabled(s, Decide(x)) && TellsTruth(s, id)
    ensures TellsTruth(DecideStep(s, x), id)
  {
    var t := DecideStep(s, x);
    if id in s.taps && id != x { DecideLeavesTap(s, x, id); }
    if i :| 0 <= i < |s.routed| && s.routed[i].tap == id { assert t.routed[i].tap == id; }
    if |t.routed| > |s.routed| { assert t.routed[|s.routed|].tap == x; }
  }

  lemma EvalTellsTruth(s: State, x: nat, fate: Fate, id: nat)
    requires Enabled(s, Eval(x, fate)) && TellsTruth(s, id)
    ensures TellsTruth(EvalStep(s, x, fate), id)
  {
    if id in s.taps && id != x { EvalLeavesTap(s, x, fate, id); }
    assert EvalStep(s, x, fate).routed == s.routed;
  }

  lemma StepTellsTruth(s: State, a: Action, id: nat)
    requires Enabled(s, a) && TellsTruth(s, id)
    ensures TellsTruth(Step(s, a), id)
  {
    match a
    case Decide(x) => DecideTellsTruth(s, x, id);
    case Eval(x, fate) => EvalTellsTruth(s, x, fate, id);
    case Read(x, ok) => if id in s.taps && id != x { ReadLeavesTap(s, x, ok, id); }
    case _ =>
  }

  lemma {:induction false} RunTellsTruth(s: State, actions: seq<Action>, id: nat)
    requires Runs(s, actions) && TellsTruth(s, id)
    ensures TellsTruth(Run(s, actions), id)
    decreases |actions|
  {
    if actions == [] {
    } else {
      StepTellsTruth(s, actions[0], id);
      RunTellsTruth(Step(s, actions[0]), actions[1..], id);
    }
  }
}
