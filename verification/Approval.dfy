/**
 * The approval pipeline of apps/assistant/src/approval/ as a protocol: any number of proposals
 * and taps interleave; keys expire, scripts are flushed, commands and replies get lost.
 */
module Approval {
  import opened Common
  import opened RedisStore
  import opened Callback

  const CLAIM_TTL := 86_400

  /** What `propose` stores, as the JSON text of `tool_name`, `payload`, ...; no payload is `undefined`. */
  datatype Envelope = Envelope(tool: string, payload: Option<string>, timeoutMs: int, createdAt: int, requestId: string)

  datatype ClaimRecord = ClaimRecord(decision: Decision, decidedBy: string, decidedAt: int, envelope: Envelope)

  datatype Value = EnvelopeJson(envelope: Envelope) | ClaimJson(record: ClaimRecord)

  function EnvelopeKey(uuid: string): string { "approval:" + uuid }

  function ClaimKey(uuid: string): string { "approval:claim:" + uuid }

  /** No two ids share a key, and no id's envelope key is any id's claim key. */
  lemma KeysAreDistinct(u: string, v: string)
    ensures EnvelopeKey(u) == EnvelopeKey(v) ==> u == v
    ensures ClaimKey(u) == ClaimKey(v) ==> u == v
    ensures IsUuid(u) && IsUuid(v) ==> EnvelopeKey(u) != ClaimKey(v)
  {
    assert EnvelopeKey(u)[9..] == u && EnvelopeKey(v)[9..] == v;
    assert ClaimKey(u)[15..] == u && ClaimKey(v)[15..] == v;
  }

  // ------------------------------------------------------------------ the claim script

  datatype Outcome = Taken | Already | Expired

  function ClaimOutcome(store: Store<Value>, now: int, uuid: string): Outcome {
    if !Live(store, now, EnvelopeKey(uuid)) then Expired
    else if Live(store, now, ClaimKey(uuid)) then Already
    else Taken
  }

  /** `CLAIM_LUA`: envelope first, then claim; taking writes the claim and deletes the envelope. */
  function ClaimLua(store: Store<Value>, now: int, uuid: string, decision: Decision, who: string, at: int): Store<Value> {
    if ClaimOutcome(store, now, uuid) != Taken then store
    else
      match store[EnvelopeKey(uuid)].value
      case ClaimJson(_) => store
      case EnvelopeJson(e) =>
        var record := ClaimRecord(decision, who, at, e);
        Del(SetEx(store, now, ClaimKey(uuid), ClaimJson(record), CLAIM_TTL), EnvelopeKey(uuid))
  }

  /** `createEnvelope`: whole seconds, at least one. */
  function TtlSeconds(timeoutMs: int): int {
    if timeoutMs / 1000 < 1 then 1 else timeoutMs / 1000
  }

  /** `lookupIntent`: every entry of the tool table is the tool's name after a slash. */
  function Intent(tool: string): string { "/" + tool }

  // ------------------------------------------------------------------ states

  datatype Answer = SaidExpired | SaidAlready | SaidRejected | SaidNoData | DidRoute | SaidError

  /** Where the handling of one tap stands, between two awaits. */
  datatype Phase =
    | Loading                            // SCRIPT LOAD before the first EVALSHA
    | Evaluating                         // first EVALSHA
    | Reloading                          // SCRIPT LOAD after NOSCRIPT
    | Retrying                           // second and last EVALSHA
    | Reading                            // claim taken, about to read the claim record
    | Deciding(envelope: Option<Envelope>)
    | Done(answer: Answer)

  datatype Tap = Tap(uuid: string, decision: Decision, who: string, decidedAt: int, phase: Phase)

  datatype Proposal = Proposal(envelope: Envelope, expires: int)

  /** Which tap took a claim, how and when. */
  datatype Win = Win(tap: nat, decision: Decision, at: int)

  datatype Routed = Routed(tap: nat, uuid: string, intent: string, payload: string)

  /** `proposals`, `won` and `routed` are history; `scriptLoaded` is Redis's script cache. */
  datatype State = State(
    now: int,
    store: Store<Value>,
    scriptLoaded: bool,
    taps: map<nat, Tap>,
    proposals: map<string, Proposal>,
    won: map<string, Win>,
    routed: seq<Routed>)

  const Init := State(0, map[], false, map[], map[], map[], [])

  /** How a Redis command fares; a client may also send a command again when its reply is lost. */
  datatype Fate = Replied | Dropped | ReplyLost | SentAgain

  datatype Action =
    | Tick(seconds: nat)
    | FlushScripts
    | Propose(uuid: string, envelope: Envelope, stored: bool)
    | TapArrives(tap: nat, data: string, who: string, warm: bool) // warm: this process knows the SHA
    | Load(tap: nat, ok: bool)
    | Eval(tap: nat, fate: Fate)
    | Read(tap: nat, ok: bool)
    | Decide(tap: nat)

  predicate In(s: State, tap: nat, phases: set<Phase>) {
    tap in s.taps && s.taps[tap].phase in phases
  }

  /** `propose` draws a fresh UUID; a tap is any callback query, however its data came about. */
  predicate Enabled(s: State, a: Action) {
    match a
    case Tick(_) => true
    case FlushScripts => true
    case Propose(uuid, _, _) => IsUuid(uuid) && uuid !in s.proposals
    case TapArrives(id, data, _, _) => id !in s.taps && Parse(data).Ok?
    case Load(id, _) => In(s, id, {Loading, Reloading})
    case Eval(id, _) => In(s, id, {Evaluating, Retrying})
    case Read(id, _) => In(s, id, {Reading})
    case Decide(id) => id in s.taps && s.taps[id].phase.Deciding?
  }

  function Move(s: State, id: nat, phase: Phase): State
    requires id in s.taps
  {
    s.(taps := s.taps[id := s.taps[id].(phase := phase)])
  }

  function ProposeStep(s: State, uuid: string, e: Envelope, stored: bool): State {
    var ttl := TtlSeconds(e.timeoutMs);
    s.(proposals := s.proposals[uuid := Proposal(e, s.now + ttl)],
       store := if stored then SetEx(s.store, s.now, EnvelopeKey(uuid), EnvelopeJson(e), ttl) else s.store)
  }

  function TapStep(s: State, id: nat, data: string, who: string, warm: bool): State
    requires Parse(data).Ok?
  {
    var p := Parse(data).value;
    s.(taps := s.taps[id := Tap(p.uuid, p.decision, who, s.now, if warm then Evaluating else Loading)])
  }

  function LoadStep(s: State, id: nat, ok: bool): State
    requires id in s.taps
  {
    if !ok then Move(s, id, Done(SaidError))
    else Move(s.(scriptLoaded := true), id, if s.taps[id].phase == Loading then Evaluating else Retrying)
  }

  /** The script's effect on the key space, and the history of who won. */
  function Claimed(s: State, id: nat): State
    requires id in s.taps
  {
    var t := s.taps[id];
    s.(store := ClaimLua(s.store, s.now, t.uuid, t.decision, t.who, t.decidedAt),
       won := if ClaimOutcome(s.store, s.now, t.uuid) == Taken
              then s.won[t.uuid := Win(id, t.decision, s.now)] else s.won)
  }

  function AfterOutcome(outcome: Outcome): Phase {
    match outcome
    case Taken => Reading
    case Already => Done(SaidAlready)
    case Expired => Done(SaidExpired)
  }

  function EvalStep(s: State, id: nat, fate: Fate): State
    requires id in s.taps
  {
    var t := s.taps[id];
    if fate == Dropped then Move(s, id, Done(SaidError))
    else if !s.scriptLoaded then
      Move(s, id, if t.phase == Evaluating && fate != ReplyLost then Reloading else Done(SaidError))
    else
      match fate
      case Replied => Move(Claimed(s, id), id, AfterOutcome(ClaimOutcome(s.store, s.now, t.uuid)))
      case ReplyLost => Move(Claimed(s, id), id, Done(SaidError))
      case _ => Claimed(s, id)
  }

  /** `readClaim` and the envelope inside it; the record may have expired meanwhile. */
  function ReadStep(s: State, id: nat, ok: bool): State
    requires id in s.taps
  {
    if !ok then Move(s, id, Done(SaidError))
    else
      var found: Option<Value> := Get(s.store, s.now, ClaimKey(s.taps[id].uuid));
      match found
      case Some(ClaimJson(record)) => Move(s, id, Deciding(Some(record.envelope)))
      case _ => Move(s, id, Deciding(None))
  }

  /** The branches of the handler's `dispatch`; the last one is the only place an action runs. */
  function DecideStep(s: State, id: nat): State
    requires id in s.taps && s.taps[id].phase.Deciding?
  {
    var t := s.taps[id];
    var e := t.phase.envelope;
    if t.decision == Reject then Move(s, id, Done(SaidRejected))
    else if e.None? || e.value.payload.None? then Move(s, id, Done(SaidNoData))
    else Move(s, id, Done(DidRoute)).(
      routed := s.routed + [Routed(id, t.uuid, Intent(e.value.tool), e.value.payload.value)])
  }

  function Step(s: State, a: Action): State
    requires Enabled(s, a)
  {
    match a
    case Tick(n) => s.(now := s.now + n)
    case FlushScripts => s.(scriptLoaded := false)
    case Propose(uuid, e, stored) => ProposeStep(s, uuid, e, stored)
    case TapArrives(id, data, who, warm) => TapStep(s, id, data, who, warm)
    case Load(id, ok) => LoadStep(s, id, ok)
    case Eval(id, fate) => EvalStep(s, id, fate)
    case Read(id, ok) => ReadStep(s, id, ok)
    case Decide(id) => DecideStep(s, id)
  }

  predicate Runs(s: State, actions: seq<Action>)
    decreases |actions|
  {
    actions == [] || (Enabled(s, actions[0]) && Runs(Step(s, actions[0]), actions[1..]))
  }

  function Run(s: State, actions: seq<Action>): State
    requires Runs(s, actions)
    decreases |actions|
  {
    if actions == [] then s else Run(Step(s, actions[0]), actions[1..])
  }

  ghost predicate Reachable(s: State) {
    exists actions :: Runs(Init, actions) && Run(Init, actions) == s
  }
}
