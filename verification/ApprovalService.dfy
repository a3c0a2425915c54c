/**
 * `RedisIdempotencyService.claim` with its cached script SHA, and the callback handler, as the
 * source runs them: one tap from button data to routed action, against one Redis.
 */
module ApprovalService {
  import opened Common
  import opened RedisStore
  import opened Callback
  import opened Approval
  import opened ApprovalInvariant
  import opened ApprovalResults

  /** The claim script's SHA-1, the same wherever it is loaded. */
  const CLAIM_SHA := "claim"

  class Redis {
    var store: Store<Value>
    var scripts: set<string>

    constructor (store: Store<Value>, scripts: set<string>)
      ensures this.store == store && this.scripts == scripts
    {
      this.store, this.scripts := store, scripts;
    }

    method ScriptLoad() returns (sha: string)
      modifies this`scripts
      ensures sha == CLAIM_SHA && scripts == old(scripts) + {CLAIM_SHA}
    {
      scripts := scripts + {CLAIM_SHA};
      sha := CLAIM_SHA;
    }

    method ScriptFlush()
      modifies this`scripts
      ensures scripts == {}
    {
      scripts := {};
    }

    /** `EVALSHA`; None is NOSCRIPT. */
    method EvalSha(sha: string, now: int, uuid: string, decision: Decision, who: string, at: int)
      returns (outcome: Option<Outcome>)
      requires sha == CLAIM_SHA
      modifies this`store
      ensures sha !in scripts ==> outcome == None && store == old(store)
      ensures sha in scripts ==>
        && outcome == Some(ClaimOutcome(old(store), now, uuid))
        && store == ClaimLua(old(store), now, uuid, decision, who, at)
    {
      if sha !in scripts { return None; }
      outcome := Some(ClaimOutcome(store, now, uuid));
      store := ClaimLua(store, now, uuid, decision, who, at);
    }
  }

  /** Whether someone flushes the script cache just before the first and the second EVALSHA. */
  datatype Flushes = Flushes(first: bool, second: bool)

  class RedisIdempotencyService {
    const redis: Redis
    var claimSha: Option<string>

    ghost predicate Valid()
      reads this
    {
      claimSha.Some? ==> claimSha.value == CLAIM_SHA
    }

    constructor (redis: Redis)
      ensures Valid() && this.redis == redis && claimSha == None
    {
      this.redis := redis;
      claimSha := None;
    }

    method CreateEnvelope(now: int, uuid: string, e: Envelope, timeoutMs: int)
      modifies redis`store
      ensures redis.store == SetEx(old(redis.store), now, EnvelopeKey(uuid), EnvelopeJson(e), TtlSeconds(timeoutMs))
    {
      redis.store := SetEx(redis.store, now, EnvelopeKey(uuid), EnvelopeJson(e), TtlSeconds(timeoutMs));
    }

    /** Load once, evaluate, and on NOSCRIPT reload and evaluate once more. */
    method Claim(now: int, uuid: string, decision: Decision, who: string, at: int, flushes: Flushes)
      returns (r: Result<Outcome, string>)
      requires Valid()
      modifies this`claimSha, redis
      ensures Valid() && claimSha.Some?
      ensures r.Ok? ==>
        && r.value == ClaimOutcome(old(redis.store), now, uuid)
        && redis.store == ClaimLua(old(redis.store), now, uuid, decision, who, at)
      ensures r.Err? ==> redis.store == old(redis.store)
      ensures r.Err? <==> flushes.second && (flushes.first || (old(claimSha).Some? && CLAIM_SHA !in old(redis.scripts)))
    {
      if claimSha.None? {
        var loaded := redis.ScriptLoad();
        claimSha := Some(loaded);
      }
      if flushes.first { redis.ScriptFlush(); }
      var outcome := redis.EvalSha(claimSha.value, now, uuid, decision, who, at);
      if outcome.Some? { return Ok(outcome.value); }
      var sha := redis.ScriptLoad();
      claimSha := Some(sha);
      if flushes.second { redis.ScriptFlush(); }
      outcome := redis.EvalSha(sha, now, uuid, decision, who, at);
      r := if outcome.Some? then Ok(outcome.value) else Err("NOSCRIPT");
    }

    method ReadClaim(now: int, uuid: string) returns (record: Option<ClaimRecord>)
      ensures record.Some? <==>
        Live(redis.store, now, ClaimKey(uuid)) && redis.store[ClaimKey(uuid)].value.ClaimJson?
      ensures record.Some? ==> record.value == redis.store[ClaimKey(uuid)].value.record
    {
      var found: Option<Value> := Get(redis.store, now, ClaimKey(uuid));
      match found
      case Some(ClaimJson(c)) => record := Some(c);
      case _ => record := None;
    }
  }

  // ------------------------------------------------------------------ the claim as a run of the protocol

  /** Whether the first EVALSHA finds the script. */
  predicate FindsScript(warm: bool, loaded: bool, flushes: Flushes) {
    !flushes.first && (!warm || loaded)
  }

  function FlushIf(flush: bool): seq<Approval.Action> {
    if flush then [FlushScripts] else []
  }

  function FirstTry(id: nat, data: string, who: string, warm: bool, flush: bool): seq<Approval.Action> {
    [TapArrives(id, data, who, warm)] + (if warm then [] else [Load(id, true)]) + (FlushIf(flush) + [Eval(id, Replied)])
  }

  function SecondTry(id: nat, flush: bool): seq<Approval.Action> {
    [Load(id, true)] + (FlushIf(flush) + [Eval(id, Replied)])
  }

  /** A tap and its claim: load unless the SHA is known, evaluate, and on NOSCRIPT load and evaluate again. */
  function ClaimScript(id: nat, data: string, who: string, warm: bool, loaded: bool, flushes: Flushes): seq<Approval.Action> {
    FirstTry(id, data, who, warm, flushes.first)
    + if FindsScript(warm, loaded, flushes) then [] else SecondTry(id, flushes.second)
  }

  ghost predicate Follows(s: State, actions: seq<Approval.Action>, end: State) {
    Runs(s, actions) && Run(s, actions) == end
  }

  lemma OneStep(s: State, a: Approval.Action)
    requires Enabled(s, a)
    ensures Follows(s, [a], Step(s, a))
  {
    assert Run(Step(s, a), [a][1..]) == Step(s, a);
  }

  lemma {:induction false} Joined(s: State, xs: seq<Approval.Action>, middle: State, ys: seq<Approval.Action>, end: State)
    requires Follows(s, xs, middle) && Follows(middle, ys, end)
    ensures Follows(s, xs + ys, end)
    decreases |xs|
  {
    if xs == [] {
      assert xs + ys == ys;
    } else {
      Joined(Step(s, xs[0]), xs[1..], middle, ys, end);
      assert (xs + ys)[0] == xs[0] && (xs + ys)[1..] == xs[1..] + ys;
    }
  }

  /** What a claim that is answered tells its tap. */
  function PhaseAfter(outcome: Outcome): Phase {
    match outcome
    case Taken => Reading
    case Already => Done(SaidAlready)
    case Expired => Done(SaidExpired)
  }

  /** `end` is `s` after a flush, perhaps, and one evaluation by the tap. */
  predicate Evaluated(s: State, id: nat, flush: bool, end: State)
    requires id in s.taps
  {
    var t := s.taps[id];
    && id in end.taps && end.now == s.now
    && end.taps[id] == t.(phase := end.taps[id].phase)
    && if s.scriptLoaded && !flush then
         && end.store == ClaimLua(s.store, s.now, t.uuid, t.decision, t.who, t.decidedAt)
         && end.taps[id].phase == PhaseAfter(ClaimOutcome(s.store, s.now, t.uuid))
       else end.store == s.store && end.taps[id].phase == if t.phase == Evaluating then Reloading else Done(SaidError)
  }

  lemma FlushAndEval(s: State, id: nat, flush: bool) returns (end: State)
    requires In(s, id, {Evaluating, Retrying})
    ensures Follows(s, FlushIf(flush) + [Eval(id, Replied)], end)
    ensures Evaluated(s, id, flush, end)
  {
    var m := if flush then Step(s, FlushScripts) else s;
    end := Step(m, Eval(id, Replied));
    if flush { OneStep(s, FlushScripts); }
    OneStep(m, Eval(id, Replied));
    Joined(s, FlushIf(flush), m, [Eval(id, Replied)], end);
  }

  lemma LoadOnce(s: State, id: nat) returns (end: State)
    requires In(s, id, {Loading, Reloading})
    ensures Follows(s, [Load(id, true)], end) && end == s.(scriptLoaded := true, taps := end.taps)
    ensures id in end.taps && end.taps[id] == s.taps[id].(phase := if s.taps[id].phase == Loading then Evaluating else Retrying)
  {
    end := Step(s, Load(id, true));
    OneStep(s, Load(id, true));
  }

  lemma FirstTryRuns(s: State, id: nat, data: string, who: string, warm: bool, flush: bool) returns (b: State, end: State)
    requires id !in s.taps && Parse(data).Ok?
    ensures var p := Parse(data).value;
            b.now == s.now && b.store == s.store && id in b.taps && b.taps[id] == Tap(p.uuid, p.decision, who, s.now, Evaluating)
    ensures b.scriptLoaded == (!warm || s.scriptLoaded)
    ensures Follows(s, FirstTry(id, data, who, warm, flush), end)
    ensures Evaluated(b, id, flush, end)
  {
    var arrives := TapArrives(id, data, who, warm);
    var a := Step(s, arrives);
    OneStep(s, arrives);
    b := a;
    if !warm { b := LoadOnce(a, id); }
    Joined(s, [arrives], a, if warm then [] else [Load(id, true)], b);
    end := FlushAndEval(b, id, flush);
    Joined(s, [arrives] + (if warm then [] else [Load(id, true)]), b, FlushIf(flush) + [Eval(id, Replied)], end);
  }

  lemma SecondTryRuns(s: State, id: nat, flush: bool) returns (b: State, end: State)
    requires In(s, id, {Reloading})
    ensures id in b.taps && b == s.(scriptLoaded := true, taps := b.taps) && b.taps[id] == s.taps[id].(phase := Retrying)
    ensures Follows(s, SecondTry(id, flush), end) && Evaluated(b, id, flush, end)
  {
    b := LoadOnce(s, id);
    end := FlushAndEval(b, id, flush);
    Joined(s, [Load(id, true)], b, FlushIf(flush) + [Eval(id, Replied)], end);
  }

  /**
   * The claim of the source is a run of the protocol, whatever flushes come between: the script
   * takes effect once and its answer reaches the tap, unless the cache is flushed between reload and
   * retry, and then nothing has happened and the tap ends in an error.
   */
  lemma ClaimIsARun(s: State, id: nat, data: string, who: string, warm: bool, flushes: Flushes) returns (end: State)
    requires id !in s.taps && Parse(data).Ok?
    ensures Follows(s, ClaimScript(id, data, who, warm, s.scriptLoaded, flushes), end)
    ensures id in end.taps
    ensures FindsScript(warm, s.scriptLoaded, flushes) || !flushes.second ==>
              var p := Parse(data).value;
              && end.store == ClaimLua(s.store, s.now, p.uuid, p.decision, who, s.now)
              && end.taps[id].phase == PhaseAfter(ClaimOutcome(s.store, s.now, p.uuid))
    ensures !FindsScript(warm, s.scriptLoaded, flushes) && flushes.second ==>
              end.store == s.store && end.taps[id].phase == Done(SaidError)
  {
    var a, b := FirstTryRuns(s, id, data, who, warm, flushes.first);
    end := b;
    if FindsScript(warm, s.scriptLoaded, flushes) {
      assert FirstTry(id, data, who, warm, flushes.first) + [] == FirstTry(id, data, who, warm, flushes.first);
    } else {
      var c;
      c, end := SecondTryRuns(b, id, flushes.second);
      Joined(s, FirstTry(id, data, who, warm, flushes.first), b, SecondTry(id, flushes.second), end);
    }
  }

  // ------------------------------------------------------------------ the service

  datatype Action = Action(intent: string, payload: string)

  /** The action a tap deserves: an approval of a pending envelope that carries a payload. */
  function Deserved(store: Store<Value>, now: int, data: string): Option<Action> {
    match Parse(data)
    case Err(_) => None
    case Ok(p) =>
      if p.decision == Reject || ClaimOutcome(store, now, p.uuid) != Taken then None
      else
        match store[EnvelopeKey(p.uuid)].value
        case EnvelopeJson(e) => if e.payload.Some? then Some(Action("/" + e.tool, e.payload.value)) else None
        case ClaimJson(_) => None
  }

  /** Envelope keys hold envelopes; every reachable state of the protocol is like this. */
  ghost predicate HoldsEnvelopes(store: Store<Value>) {
    forall u :: IsUuid(u) && EnvelopeKey(u) in store ==> store[EnvelopeKey(u)].value.EnvelopeJson?
  }

  lemma ReachableHoldsEnvelopes(s: State)
    requires Reachable(s)
    ensures HoldsEnvelopes(s.store)
  {
    ReachableInv(s);
    forall u | IsUuid(u) && EnvelopeKey(u) in s.store ensures s.store[EnvelopeKey(u)].value.EnvelopeJson? {
      assert IdInv(s, u);
    }
  }

  const DEFAULT_TIMEOUT_MS := 300_000

  datatype Proposed =
    | NotRequired
    | Required(pendingId: string, approveCallback: string, rejectCallback: string, timeoutMs: int)

  function Offered(tool: string, payload: Option<string>): Option<Action> {
    if payload.Some? then Some(Action("/" + tool, payload.value)) else None
  }

  /** `propose` of apps/assistant/src/approval/approval.service.ts. */
  class Proposer {
    const approval: RedisIdempotencyService

    constructor (approval: RedisIdempotencyService)
      ensures this.approval == approval
    {
      this.approval := approval;
    }

    /**
     * The approve button of a proposal deserves exactly the proposed action, from now until
     * the timeout; its reject button never deserves one; and what any other id's button
     * deserves is as before. `required` is the policy's decision, `uuid` a fresh UUID.
     */
    method Propose(now: int, required: bool, timeout: Option<int>, tool: string, payload: Option<string>,
                   uuid: string, createdAt: int, requestId: string) returns (r: Proposed)
      requires IsUuid(uuid) && ClaimKey(uuid) !in approval.redis.store && HoldsEnvelopes(approval.redis.store)
      modifies approval.redis`store
      ensures HoldsEnvelopes(approval.redis.store)
      ensures !required ==> r == NotRequired && approval.redis.store == old(approval.redis.store)
      ensures required ==> r.Required? && r.pendingId == uuid && r.timeoutMs == (if timeout.Some? then timeout.value else 300_000)
      ensures required ==> forall at :: at < now + TtlSeconds(r.timeoutMs) ==>
                Deserved(approval.redis.store, at, r.approveCallback) == Offered(tool, payload)
      ensures required ==> forall at :: at >= now + TtlSeconds(r.timeoutMs) ==>
                Deserved(approval.redis.store, at, r.approveCallback) == None
      ensures required ==> forall at :: Deserved(approval.redis.store, at, r.rejectCallback) == None
      ensures forall at, data :: Parse(data).Ok? && Parse(data).value.uuid != uuid ==>
                Deserved(approval.redis.store, at, data) == Deserved(old(approval.redis.store), at, data)
    {
      if !required { return NotRequired; }
      var timeoutMs := timeout.Or(DEFAULT_TIMEOUT_MS);
      ghost var before := approval.redis.store;
      approval.CreateEnvelope(now, uuid, Envelope(tool, payload, timeoutMs, createdAt, requestId), timeoutMs);
      EncodedIsParsed(uuid, Approve);
      EncodedIsParsed(uuid, Reject);
      r := Required(uuid, Encode(uuid, Approve).value, Encode(uuid, Reject).value, timeoutMs);
      forall other | IsUuid(other) ensures EnvelopeKey(other) in approval.redis.store ==>
        approval.redis.store[EnvelopeKey(other)].value.EnvelopeJson?
      {
        Approval.KeysAreDistinct(uuid, other);
      }
      Approval.KeysAreDistinct(uuid, uuid);
      forall at, data | Parse(data).Ok? && Parse(data).value.uuid != uuid
        ensures Deserved(approval.redis.store, at, data) == Deserved(before, at, data)
      {
        OthersAreUntouched(before, now, uuid, approval.redis.store[EnvelopeKey(uuid)].value, TtlSeconds(timeoutMs), at, data);
      }
    }
  }

  lemma OthersAreUntouched(store: Store<Value>, now: int, uuid: string, value: Value, ttl: int, at: int, data: string)
    requires IsUuid(uuid) && Parse(data).Ok? && Parse(data).value.uuid != uuid
    ensures Deserved(SetEx(store, now, EnvelopeKey(uuid), value, ttl), at, data) == Deserved(store, at, data)
  {
    Approval.KeysAreDistinct(uuid, Parse(data).value.uuid);
  }

  class ApprovalCallbackHandler {
    const approval: RedisIdempotencyService

    constructor (approval: RedisIdempotencyService)
      ensures this.approval == approval
    {
      this.approval := approval;
    }

    /**
     * One tap, nothing else running: the deserved action is routed, and no other; a tap that
     * is claimed leaves no envelope behind, so a second tap on the same id deserves nothing.
     */
    method Handle(now: int, data: string, who: string, flushes: Flushes) returns (routed: Option<Action>)
      requires approval.Valid() && HoldsEnvelopes(approval.redis.store)
      modifies approval`claimSha, approval.redis
      ensures approval.Valid()
      ensures routed.Some? ==> routed == Deserved(old(approval.redis.store), now, data)
      ensures !flushes.second ==> routed == Deserved(old(approval.redis.store), now, data)
      ensures routed.Some? ==> forall later :: Deserved(approval.redis.store, later, data) == None
    {
      var parsed := Parse(data);
      if parsed.Err? { return None; }
      var uuid, decision := parsed.value.uuid, parsed.value.decision;
      ghost var before := approval.redis.store;
      var outcome := approval.Claim(now, uuid, decision, who, now, flushes);
      if outcome.Err? || outcome.value != Taken { return None; }
      TakenLeavesClaim(before, now, uuid, decision, who);
      var record := approval.ReadClaim(now, uuid);
      if decision == Reject { return None; }
      if record.None? || record.value.envelope.payload.None? { return None; }
      var e := record.value.envelope;
      routed := Some(Action(Intent(e.tool), e.payload.value));
    }
  }

  lemma TakenLeavesClaim(store: Store<Value>, now: int, uuid: string, decision: Decision, who: string)
    requires IsUuid(uuid) && HoldsEnvelopes(store) && ClaimOutcome(store, now, uuid) == Taken
    ensures
      var after := ClaimLua(store, now, uuid, decision, who, now);
      && store[EnvelopeKey(uuid)].value.EnvelopeJson?
      && EnvelopeKey(uuid) !in after
      && Get(after, now, ClaimKey(uuid)) ==
         Some(ClaimJson(ClaimRecord(decision, who, now, store[EnvelopeKey(uuid)].value.envelope)))
  {
    Approval.KeysAreDistinct(uuid, uuid);
  }
}
