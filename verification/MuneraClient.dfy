/** The retry loop and the credential verdict of apps/assistant/src/agents/munera/munera.client.ts. */
module MuneraClient {
  import opened Common

  /** What one fetch meets: no answer at all, or a status and whether its body could be read. */
  datatype Wire = NoAnswer | Answered(status: int, bodyRead: bool)

  /** `HttpResult`, a `MuneraClientError` with its status, or an error without one. */
  datatype Outcome = Returned(status: int) | Refused(status: int) | Failed

  datatype Credential = Unverified | Accepted | Rejected

  predicate Redirect(status: int) { 300 <= status < 400 }

  /** The statuses that trip the breaker, and the ones worth another try. */
  predicate Transient(status: int) { status >= 500 || status == 408 || status == 429 }

  predicate IsRetryable(o: Outcome)
    requires !o.Returned?
  {
    o.Failed? || Transient(o.status)
  }

  /** `isClientFault`, which the breaker does not count. */
  predicate IsClientFault(o: Outcome)
    requires !o.Returned?
  {
    o.Refused? && 400 <= o.status < 500 && o.status != 408 && o.status != 429
  }

  // ------------------------------------------------------------------ specification

  /** What a fetch comes to. */
  function OutcomeOf(w: Wire): Outcome {
    match w
    case NoAnswer => Failed
    case Answered(status, bodyRead) =>
      if Redirect(status) then Refused(status)
      else if !bodyRead then Failed
      else if Transient(status) then Refused(status)
      else Returned(status)
  }

  /** Worth another try: no answer, an unreadable one, or a transient status. */
  predicate Again(w: Wire) {
    w.NoAnswer? || (!Redirect(w.status) && (!w.bodyRead || Transient(w.status)))
  }

  /** What a readable response says about the key: only a 401, a 2xx or a 403 says anything. */
  function Verdict(w: Wire): Option<Credential> {
    if w.NoAnswer? || !w.bodyRead then None
    else if w.status == 401 then Some(Rejected)
    else if 200 <= w.status < 300 || w.status == 403 then Some(Accepted)
    else None
  }

  /** The state is the verdict of the last response that gave one. */
  ghost predicate DecidedBy(log: seq<Wire>, state: Credential) {
    if forall i :: 0 <= i < |log| ==> Verdict(log[i]) == None
    then state == Unverified
    else exists k :: LastWord(log, k) && Verdict(log[k]) == Some(state)
  }

  ghost predicate LastWord(log: seq<Wire>, k: int) {
    0 <= k < |log| && Verdict(log[k]).Some? && forall j :: k < j < |log| ==> Verdict(log[j]) == None
  }

  lemma LogGrows(log: seq<Wire>, state: Credential, w: Wire)
    requires DecidedBy(log, state)
    ensures DecidedBy(log + [w], Verdict(w).Or(state))
  {
    var all := log + [w];
    assert all[|log|] == w && forall i :: 0 <= i < |log| ==> all[i] == log[i];
    if Verdict(w).Some? {
      assert LastWord(all, |log|);
    } else if !(forall i :: 0 <= i < |log| ==> Verdict(log[i]) == None) {
      var k :| LastWord(log, k) && Verdict(log[k]) == Some(state);
      assert LastWord(all, k);
    }
  }

  /** The log alone determines the state. */
  lemma StateIsDetermined(log: seq<Wire>, a: Credential, b: Credential)
    requires DecidedBy(log, a) && DecidedBy(log, b)
    ensures a == b
  {
    if !(forall i :: 0 <= i < |log| ==> Verdict(log[i]) == None) {
      var j :| LastWord(log, j) && Verdict(log[j]) == Some(a);
      var k :| LastWord(log, k) && Verdict(log[k]) == Some(b);
      assert j == k;
    }
  }

  /** Nothing that is tried again says anything about the key. */
  lemma RetriedIsSilent(w: Wire)
    requires Again(w)
    ensures Verdict(w) == None
  {
  }

  /**
   * The exact condition for a response to leave the state alone, after whatever log: all but a
   * 401, a 2xx or a 403 with a body that could be read. A success that breaks off is no last word.
   */
  lemma SilentIff(w: Wire)
    ensures
      (forall log, state :: DecidedBy(log, state) ==> DecidedBy(log + [w], state)) <==>
      !(w.Answered? && w.bodyRead && (w.status == 401 || 200 <= w.status < 300 || w.status == 403))
  {
    if Verdict(w) == None {
      forall log, state | DecidedBy(log, state) ensures DecidedBy(log + [w], state) { LogGrows(log, state, w); }
    } else {
      assert DecidedBy([], Unverified) && [] + [w] == [w];
      LogGrows([], Unverified, w);
      if DecidedBy([w], Unverified) { StateIsDetermined([w], Unverified, Verdict(w).value); }
    }
  }

  /** What a last word leaves, after whatever log. */
  lemma LastWordSays(log: seq<Wire>, before: Credential, w: Wire, after: Credential)
    requires DecidedBy(log, before) && DecidedBy(log + [w], after)
    ensures w == Answered(401, true) ==> after == Rejected
    ensures w.Answered? && w.bodyRead && (200 <= w.status < 300 || w.status == 403) ==> after == Accepted
  {
    LogGrows(log, before, w);
    StateIsDetermined(log + [w], after, Verdict(w).Or(before));
  }

  /** What each status comes to, and which are tried again. */
  lemma OutcomeIs(status: int, bodyRead: bool)
    ensures
      OutcomeOf(Answered(status, bodyRead)) ==
      if 300 <= status < 400 then Refused(status)
      else if !bodyRead then Failed
      else if status in {408, 429} || status >= 500 then Refused(status) else Returned(status)
    ensures
      Again(Answered(status, bodyRead)) <==>
      !(300 <= status < 400) && (!bodyRead || status in {408, 429} || status >= 500)
    ensures OutcomeOf(NoAnswer) == Failed && Again(NoAnswer)
  {
  }

  /**
   * The breaker's error filter is idle: a client fault comes back as a result, so no error that
   * reaches the breaker is one. It counts redirects, unreadable answers and transient statuses.
   */
  lemma BreakerSeesNoClientFault(w: Wire)
    ensures OutcomeOf(w).Returned? || !IsClientFault(OutcomeOf(w))
    ensures !OutcomeOf(w).Returned? <==> Again(w) || Redirect(w.status)
    ensures OutcomeOf(w).Refused? ==> 300 <= w.status < 400 || w.status in {408, 429} || w.status >= 500
    ensures forall n :: IsClientFault(Refused(n)) <==> 400 <= n < 500 && n !in {408, 429}
  {
  }

  function Pow3(n: nat): nat {
    if n == 0 then 1 else 3 * Pow3(n - 1)
  }

  /** What the network does to the fetches of one call, in order; beyond the list nothing answers. */
  function WireAt(wires: seq<Wire>, i: nat): Wire {
    if i < |wires| then wires[i] else NoAnswer
  }

  function Tape(wires: seq<Wire>, n: nat): seq<Wire> {
    seq(n, i requires 0 <= i < n => WireAt(wires, i))
  }

  // ------------------------------------------------------------------ the client

  class Client {
    const maxAttempts: nat
    const baseDelayMs: nat
    var lastCredentialState: Credential
    /** Every response of every fetch so far. */
    ghost var log: seq<Wire>

    ghost predicate Valid()
      reads this
    {
      DecidedBy(log, lastCredentialState)
    }

    constructor (maxAttempts: nat, baseDelayMs: nat)
      ensures Valid() && log == [] && this.maxAttempts == maxAttempts && this.baseDelayMs == baseDelayMs
    {
      this.maxAttempts, this.baseDelayMs := maxAttempts, baseDelayMs;
      lastCredentialState, log := Unverified, [];
    }

    method DoFetch(w: Wire) returns (o: Outcome)
      modifies this
      ensures o == OutcomeOf(w)
      ensures !o.Returned? ==> (IsRetryable(o) <==> Again(w))
      ensures log == old(log) + [w]
      ensures lastCredentialState == Verdict(w).Or(old(lastCredentialState))
      ensures old(Valid()) ==> Valid()
    {
      if old(Valid()) { LogGrows(log, lastCredentialState, w); }
      log := log + [w];
      if w.NoAnswer? { return Failed; }
      if w.status >= 300 && w.status < 400 { return Refused(w.status); }
      if !w.bodyRead { return Failed; }
      if w.status == 401 {
        lastCredentialState := Rejected;
      } else if (w.status >= 200 && w.status < 300) || w.status == 403 {
        lastCredentialState := Accepted;
      }
      if w.status >= 500 || w.status == 408 || w.status == 429 { return Refused(w.status); }
      return Returned(w.status);
    }

    /**
     * Every fetch but the last met something worth another try; the last did not, or was the
     * last allowed. A call that is not retryable fetches once. The key's state moves at most
     * once, on the final response.
     */
    method ExecuteRequest(retryable: bool, wires: seq<Wire>) returns (o: Outcome, fetches: nat, slept: nat)
      requires Valid()
      modifies this
      ensures Valid()
      ensures 1 <= fetches <= (if retryable then maxAttempts + 1 else 1)
      ensures forall i :: 0 <= i < fetches - 1 ==> Again(WireAt(wires, i))
      ensures retryable && fetches <= maxAttempts ==> !Again(WireAt(wires, fetches - 1))
      ensures o == OutcomeOf(WireAt(wires, fetches - 1))
      ensures log == old(log) + Tape(wires, fetches)
      ensures lastCredentialState == Verdict(WireAt(wires, fetches - 1)).Or(old(lastCredentialState))
      ensures 2 * slept == baseDelayMs * (Pow3(fetches - 1) - 1)
    {
      var attempts := if retryable then maxAttempts + 1 else 1;
      slept := 0;
      var attempt := 1;
      while true
        invariant 1 <= attempt <= attempts && Valid()
        invariant forall i :: 0 <= i < attempt - 1 ==> Again(WireAt(wires, i))
        invariant log == old(log) + Tape(wires, attempt - 1)
        invariant lastCredentialState == old(lastCredentialState)
        invariant 2 * slept == baseDelayMs * (Pow3(attempt - 1) - 1)
        decreases attempts - attempt
      {
        var w := WireAt(wires, attempt - 1);
        assert Tape(wires, attempt) == Tape(wires, attempt - 1) + [w];
        o := DoFetch(w);
        fetches := attempt;
        if Again(w) { RetriedIsSilent(w); }
        if o.Returned? || !retryable || attempt == attempts || !IsRetryable(o) { return; }
        slept := slept + baseDelayMs * Pow3(attempt - 1);
        attempt := attempt + 1;
      }
    }

    /** The breaker may fail a call without a fetch; whatever the calls, the state is the last word. */
    method CallAll(calls: seq<(bool, bool, seq<Wire>)>)
      requires Valid()
      modifies this
      ensures Valid() && old(log) <= log
      ensures (forall i :: 0 <= i < |calls| ==> calls[i].0) ==> log == old(log)
    {
      for i := 0 to |calls|
        invariant Valid() && old(log) <= log
        invariant (forall j :: 0 <= j < i ==> calls[j].0) ==> log == old(log)
      {
        var (open, retryable, wires) := calls[i];
        if !open { var o, fetches, slept := ExecuteRequest(retryable, wires); }
      }
    }
  }

  // ------------------------------------------------------------------ calls that overlap

  /** A call of the service: how often it fetched, and what it came to once it is over. */
  datatype Call = Call(retryable: bool, fetches: nat, outcome: Option<Outcome>)

  /** One response and the call it was for. */
  datatype Entry = Entry(call: nat, wire: Wire)

  datatype State = State(calls: map<nat, Call>, credential: Credential, log: seq<Entry>)

  /** What follows a response runs to the next await in one go, so calls interleave by their responses. */
  datatype Event = Begin(call: nat, retryable: bool) | Response(call: nat, wire: Wire)

  const Start := State(map[], Unverified, [])

  predicate Enabled(s: State, e: Event) {
    match e
    case Begin(id, _) => id !in s.calls
    case Response(id, _) => id in s.calls && s.calls[id].outcome.None?
  }

  function Attempts(retryable: bool, maxAttempts: nat): nat {
    if retryable then maxAttempts + 1 else 1
  }

  function Step(s: State, e: Event, maxAttempts: nat): State
    requires Enabled(s, e)
  {
    match e
    case Begin(id, retryable) => s.(calls := s.calls[id := Call(retryable, 0, None)])
    case Response(id, w) =>
      var c := s.calls[id];
      var over := !c.retryable || c.fetches + 1 >= Attempts(c.retryable, maxAttempts) || !Again(w);
      State(s.calls[id := Call(c.retryable, c.fetches + 1, if over then Some(OutcomeOf(w)) else None)],
            Verdict(w).Or(s.credential), s.log + [Entry(id, w)])
  }

  predicate Runs(s: State, events: seq<Event>, maxAttempts: nat)
    decreases |events|
  {
    events == [] || (Enabled(s, events[0]) && Runs(Step(s, events[0], maxAttempts), events[1..], maxAttempts))
  }

  function Run(s: State, events: seq<Event>, maxAttempts: nat): State
    requires Runs(s, events, maxAttempts)
    decreases |events|
  {
    if events == [] then s else Run(Step(s, events[0], maxAttempts), events[1..], maxAttempts)
  }

  function Wires(log: seq<Entry>): (r: seq<Wire>)
    ensures |r| == |log| && forall i :: 0 <= i < |log| ==> r[i] == log[i].wire
  {
    seq(|log|, i requires 0 <= i < |log| => log[i].wire)
  }

  /** The responses to one call, in order. */
  function Of(log: seq<Entry>, call: nat): seq<Wire> {
    if log == [] then []
    else
      var n := |log| - 1;
      Of(log[..n], call) + if log[n].call == call then [log[n].wire] else []
  }

  lemma OfSnoc(log: seq<Entry>, e: Entry, call: nat)
    ensures Of(log + [e], call) == Of(log, call) + if e.call == call then [e.wire] else []
  {
    assert (log + [e])[..|log|] == log;
  }

  /** The retry discipline of one call, over the responses it got. */
  ghost predicate Disciplined(c: Call, wires: seq<Wire>, maxAttempts: nat) {
    var attempts := if c.retryable then maxAttempts + 1 else 1;
    && |wires| == c.fetches <= attempts
    && (forall i :: 0 <= i < c.fetches - 1 ==> Again(wires[i]))
    && (c.outcome.None? ==> c.fetches < attempts && forall i :: 0 <= i < c.fetches ==> Again(wires[i]))
    && (c.outcome.Some? ==>
          && c.fetches > 0 && c.outcome.value == OutcomeOf(wires[c.fetches - 1])
          && (c.fetches == attempts || !Again(wires[c.fetches - 1])))
  }

  ghost predicate CallInv(s: State, id: nat, maxAttempts: nat) {
    if id in s.calls then Disciplined(s.calls[id], Of(s.log, id), maxAttempts) else Of(s.log, id) == []
  }

  ghost predicate Inv(s: State, maxAttempts: nat) {
    DecidedBy(Wires(s.log), s.credential) && forall id :: CallInv(s, id, maxAttempts)
  }

  lemma StepKeepsCall(s: State, e: Event, maxAttempts: nat, id: nat)
    requires Enabled(s, e) && CallInv(s, id, maxAttempts)
    ensures CallInv(Step(s, e, maxAttempts), id, maxAttempts)
  {
    if e.Response? { OfSnoc(s.log, Entry(e.call, e.wire), id); }
  }

  lemma StepKeepsInv(s: State, e: Event, maxAttempts: nat)
    requires Enabled(s, e) && Inv(s, maxAttempts)
    ensures Inv(Step(s, e, maxAttempts), maxAttempts)
  {
    if e.Response? {
      LogGrows(Wires(s.log), s.credential, e.wire);
      assert Wires(s.log + [Entry(e.call, e.wire)]) == Wires(s.log) + [e.wire];
    }
    forall id ensures CallInv(Step(s, e, maxAttempts), id, maxAttempts) { StepKeepsCall(s, e, maxAttempts, id); }
  }

  lemma {:induction false} RunKeepsInv(s: State, events: seq<Event>, maxAttempts: nat)
    requires Inv(s, maxAttempts) && Runs(s, events, maxAttempts)
    ensures Inv(Run(s, events, maxAttempts), maxAttempts)
    decreases |events|
  {
    if events == [] {
    } else {
      StepKeepsInv(s, events[0], maxAttempts);
      RunKeepsInv(Step(s, events[0], maxAttempts), events[1..], maxAttempts);
    }
  }

  /**
   * However the calls of the service overlap, the state is the last word among all responses,
   * a call that is over came to what its last response comes to, a write fetched once, and no
   * call fetched again after a response that was not worth it.
   */
  lemma OverlappingCalls(events: seq<Event>, maxAttempts: nat, id: nat)
    requires Runs(Start, events, maxAttempts) && id in Run(Start, events, maxAttempts).calls
    ensures
      var s := Run(Start, events, maxAttempts);
      DecidedBy(Wires(s.log), s.credential) && Disciplined(s.calls[id], Of(s.log, id), maxAttempts)
  {
    RunKeepsInv(Start, events, maxAttempts);
    assert CallInv(Run(Start, events, maxAttempts), id, maxAttempts);
  }
}
