/**
 * The scope index of apps/assistant/src/aal/scope-guard.ts, keyed by `principal::agent`, against
 * the manifest grammar of apps/assistant/src/aal/scope.schema.ts.
 */
module ScopeGuard {

  datatype Agent = Agent(name: string, intents: seq<string>)

  datatype Scope = Scope(principal: string, agents: seq<Agent>)

  /** One agent entry of the manifest, with the principal it belongs to. */
  datatype Grant = Grant(principal: string, agent: string, intents: seq<string>)

  function Key(principal: string, agent: string): string {
    principal + "::" + agent
  }

  // ------------------------------------------------------------------ the schema's grammar

  predicate IsLetter(c: char) { 'a' <= c <= 'z' || 'A' <= c <= 'Z' }

  predicate IsWord(c: char) { IsLetter(c) || '0' <= c <= '9' || c == '_' }

  /** `[a-z][a-z0-9_]*:[a-z][a-z0-9_-]*` in either case, with its colon at `k`. */
  predicate ColonAt(s: string, k: nat) {
    && 0 < k < |s| - 1 && s[k] == ':'
    && IsLetter(s[0]) && (forall i :: 1 <= i < k ==> IsWord(s[i]))
    && IsLetter(s[k + 1]) && (forall i :: k + 2 <= i < |s| ==> IsWord(s[i]) || s[i] == '-')
  }

  ghost predicate IsPrincipal(s: string) {
    exists k :: ColonAt(s, k)
  }

  predicate ValidAgent(agent: Agent) {
    && agent.name != "" && agent.intents != []
    && forall i :: 0 <= i < |agent.intents| ==> "/" <= agent.intents[i]
  }

  ghost predicate ValidScope(scope: Scope) {
    IsPrincipal(scope.principal) && scope.agents != [] && forall j :: 0 <= j < |scope.agents| ==> ValidAgent(scope.agents[j])
  }

  ghost predicate ValidManifest(manifest: seq<Scope>) {
    manifest != [] && forall i :: 0 <= i < |manifest| ==> ValidScope(manifest[i])
  }

  /** A principal has no two colons in a row and does not end in one, so `::` ends it. */
  lemma PrincipalHasOneColon(s: string, k: nat)
    requires ColonAt(s, k)
    ensures forall i :: 0 <= i < |s| && s[i] == ':' ==> i == k
  {
  }

  /** No string that shares a key with a principal is shorter. */
  lemma NotLonger(p: string, q: string, a: string, b: string)
    requires IsPrincipal(q) && Key(p, a) == Key(q, b)
    ensures |q| <= |p|
  {
    var k :| ColonAt(q, k);
    PrincipalHasOneColon(q, k);
    var key := Key(p, a);
    assert key[|p|] == ':' && key[|p| + 1] == ':';
    assert forall i :: 0 <= i < |q| ==> key[i] == q[i];
    assert q[|q| - 1] != ':';
  }

  /** The key decodes uniquely: agent names may be anything at all, colons included. */
  lemma KeyDecodes(p: string, q: string, a: string, b: string)
    requires IsPrincipal(p) && IsPrincipal(q) && Key(p, a) == Key(q, b)
    ensures p == q && a == b
  {
    NotLonger(p, q, a, b);
    NotLonger(q, p, b, a);
    assert Key(p, a)[..|p|] == p && Key(q, b)[..|q|] == q;
    assert Key(p, a)[|p| + 2..] == a && Key(q, b)[|q| + 2..] == b;
  }

  // ------------------------------------------------------------------ aliases

  /** `p` is the principal `q` followed by `:` alone, or by `::` and anything. */
  ghost predicate AliasOf(p: string, q: string) {
    IsPrincipal(q) && q != p && q + "::" <= p + "::"
  }

  ghost predicate Aliased(p: string) {
    exists q :: AliasOf(p, q)
  }

  /** Whoever else shares a key with a principal is an alias of it. */
  lemma SharedKeyIsAlias(p: string, q: string, a: string, b: string)
    requires IsPrincipal(q) && q != p && Key(p, a) == Key(q, b)
    ensures AliasOf(p, q)
  {
    NotLonger(p, q, a, b);
    var key := Key(p, a);
    assert key[..|p|] == p && key[..|q|] == q;
    assert key[..|p| + 2] == p + "::" && key[..|q| + 2] == q + "::";
  }

  lemma PrincipalsAreNoAliases(p: string)
    requires IsPrincipal(p)
    ensures !Aliased(p)
  {
    forall q ensures !AliasOf(p, q) {
      if AliasOf(p, q) {
        var rest := (p + "::")[|q| + 2..];
        assert p + "::" == Key(q, rest) && p + "::" == Key(p, "");
        KeyDecodes(p, q, "", rest);
      }
    }
  }

  // ------------------------------------------------------------------ what the manifest grants

  ghost predicate Grants(manifest: seq<Scope>, principal: string, agent: string, intent: string) {
    exists i, j :: GrantsAt(manifest, i, j, principal, agent, intent)
  }

  ghost predicate GrantsAt(manifest: seq<Scope>, i: int, j: int, principal: string, agent: string, intent: string) {
    && 0 <= i < |manifest| && 0 <= j < |manifest[i].agents|
    && manifest[i].principal == principal && manifest[i].agents[j].name == agent
    && intent in manifest[i].agents[j].intents
  }

  function Get(index: map<string, set<string>>, key: string): set<string> {
    if key in index then index[key] else {}
  }

  /** The two maps after some grants have been entered. */
  ghost predicate Indexed(index: map<string, set<string>>, agents: map<string, set<string>>, gs: seq<Grant>) {
    && (forall key, intent :: intent in Get(index, key) <==>
          exists i :: 0 <= i < |gs| && Key(gs[i].principal, gs[i].agent) == key && intent in gs[i].intents)
    && (forall principal, agent :: agent in Get(agents, principal) <==>
          exists i :: 0 <= i < |gs| && gs[i].principal == principal && gs[i].agent == agent)
  }

  function Enter(index: map<string, set<string>>, g: Grant): map<string, set<string>> {
    var key := Key(g.principal, g.agent);
    index[key := Get(index, key) + (set x | x in g.intents)]
  }

  function EnterAgent(agents: map<string, set<string>>, g: Grant): map<string, set<string>> {
    agents[g.principal := Get(agents, g.principal) + {g.agent}]
  }

  lemma EnterKeepsIndexed(index: map<string, set<string>>, agents: map<string, set<string>>, gs: seq<Grant>, g: Grant)
    requires Indexed(index, agents, gs)
    ensures Indexed(Enter(index, g), EnterAgent(agents, g), gs + [g])
  {
    var all := gs + [g];
    assert all[|gs|] == g && forall i :: 0 <= i < |gs| ==> all[i] == gs[i];
    forall key, intent ensures intent in Get(Enter(index, g), key) <==>
      exists i :: 0 <= i < |all| && Key(all[i].principal, all[i].agent) == key && intent in all[i].intents
    {
      assert intent in Get(Enter(index, g), key) <==>
        intent in Get(index, key) || (Key(g.principal, g.agent) == key && intent in g.intents);
      if i :| 0 <= i < |gs| && Key(gs[i].principal, gs[i].agent) == key && intent in gs[i].intents {
        assert all[i] == gs[i];
      } else if Key(g.principal, g.agent) == key && intent in g.intents {
        assert all[|gs|] == g;
      }
    }
    forall principal, agent ensures agent in Get(EnterAgent(agents, g), principal) <==>
      exists i :: 0 <= i < |all| && all[i].principal == principal && all[i].agent == agent
    {
      assert agent in Get(EnterAgent(agents, g), principal) <==>
        agent in Get(agents, principal) || (g.principal == principal && g.agent == agent);
      if i :| 0 <= i < |gs| && gs[i].principal == principal && gs[i].agent == agent {
        assert all[i] == gs[i];
      } else if g.principal == principal && g.agent == agent {
        assert all[|gs|] == g;
      }
    }
  }

  /** The two maps after entering some grants, from nothing. */
  function IndexOf(gs: seq<Grant>): map<string, set<string>> {
    if gs == [] then map[] else Enter(IndexOf(gs[..|gs| - 1]), gs[|gs| - 1])
  }

  function AgentsOf(gs: seq<Grant>): map<string, set<string>> {
    if gs == [] then map[] else EnterAgent(AgentsOf(gs[..|gs| - 1]), gs[|gs| - 1])
  }

  lemma IndexSnoc(gs: seq<Grant>, g: Grant)
    ensures IndexOf(gs + [g]) == Enter(IndexOf(gs), g) && AgentsOf(gs + [g]) == EnterAgent(AgentsOf(gs), g)
  {
    assert (gs + [g])[..|gs|] == gs;
  }

  lemma {:induction false} IndexHoldsGrants(gs: seq<Grant>)
    ensures Indexed(IndexOf(gs), AgentsOf(gs), gs)
  {
    if gs == [] {
    } else {
      var n := |gs| - 1;
      IndexHoldsGrants(gs[..n]);
      EnterKeepsIndexed(IndexOf(gs[..n]), AgentsOf(gs[..n]), gs[..n], gs[n]);
      assert gs[..n] + [gs[n]] == gs;
    }
  }

  // ------------------------------------------------------------------ the guard

  class Guard {
    var index: map<string, set<string>>
    var agentIndex: map<string, set<string>>

    constructor ()
      ensures index == map[] && agentIndex == map[]
    {
      index, agentIndex := map[], map[];
    }

    /** The inner loop of `load`. */
    static method EnterScope(entry: Scope, intents: map<string, set<string>>, agents: map<string, set<string>>, ghost entered: seq<Grant>)
      returns (nextIntents: map<string, set<string>>, nextAgents: map<string, set<string>>)
      requires intents == IndexOf(entered) && agents == AgentsOf(entered)
      ensures
        var all := entered + GrantsIn(entry.principal, entry.agents);
        nextIntents == IndexOf(all) && nextAgents == AgentsOf(all)
    {
      nextIntents, nextAgents := intents, agents;
      ghost var all := entered;
      for j := 0 to |entry.agents|
        invariant all == entered + GrantsIn(entry.principal, entry.agents[..j])
        invariant nextIntents == IndexOf(all) && nextAgents == AgentsOf(all)
      {
        var agent := entry.agents[j];
        ghost var g := Grant(entry.principal, agent.name, agent.intents);
        IndexSnoc(all, g);
        GrantsInSnoc(entry.principal, entry.agents, j);
        var agentSet := Get(nextAgents, entry.principal);
        nextAgents := nextAgents[entry.principal := agentSet + {agent.name}];
        var agentKey := Key(entry.principal, agent.name);
        var intentSet := Get(nextIntents, agentKey);
        nextIntents := nextIntents[agentKey := intentSet + (set x | x in agent.intents)];
        all := all + [g];
      }
      assert entry.agents[..|entry.agents|] == entry.agents;
    }

    /** Replaces both indexes by those of `manifest`; nothing of an earlier load remains. */
    method Load(manifest: seq<Scope>)
      modifies this
      ensures index == IndexOf(GrantsOf(manifest)) && agentIndex == AgentsOf(GrantsOf(manifest))
      ensures Indexed(index, agentIndex, GrantsOf(manifest))
    {
      var nextIntents: map<string, set<string>>, nextAgents: map<string, set<string>> := map[], map[];
      for i := 0 to |manifest|
        invariant nextIntents == IndexOf(GrantsOf(manifest[..i])) && nextAgents == AgentsOf(GrantsOf(manifest[..i]))
      {
        nextIntents, nextAgents := EnterScope(manifest[i], nextIntents, nextAgents, GrantsOf(manifest[..i]));
        GrantsOfSnoc(manifest, i);
      }
      assert manifest[..|manifest|] == manifest;
      IndexHoldsGrants(GrantsOf(manifest));
      index, agentIndex := nextIntents, nextAgents;
    }

    function IsAllowed(principal: string, agent: string, intent: string): bool
      reads this
    {
      intent in Get(index, Key(principal, agent))
    }

    function ListAgents(principal: string): set<string>
      reads this
    {
      Get(agentIndex, principal)
    }

    function ListIntents(principal: string, agent: string): set<string>
      reads this
    {
      Get(index, Key(principal, agent))
    }

    /**
     * After any sequence of loads the guard answers from the last manifest alone: exactly what
     * it grants to any string that is no alias, principals of the grammar among them, and the
     * agents it lists for any string at all.
     */
    method LoadAll(manifests: seq<seq<Scope>>)
      requires manifests != []
      requires ValidManifest(manifests[|manifests| - 1])
      modifies this
      ensures
        var last := manifests[|manifests| - 1];
        && (forall p, agent, intent :: !Aliased(p) ==>
              (IsAllowed(p, agent, intent) <==> Grants(last, p, agent, intent))
              && (intent in ListIntents(p, agent) <==> Grants(last, p, agent, intent)))
        && (forall p, agent :: agent in ListAgents(p) <==> Lists(last, p, agent))
      ensures forall p :: IsPrincipal(p) ==> !Aliased(p)
    {
      for i := 0 to |manifests|
        invariant i > 0 ==> index == IndexOf(GrantsOf(manifests[i - 1])) && agentIndex == AgentsOf(GrantsOf(manifests[i - 1]))
      {
        Load(manifests[i]);
      }
      var last := manifests[|manifests| - 1];
      forall p | !Aliased(p) ensures AgreesOn(last, p) { AgreesUnlessAliased(last, p); }
      forall p, agent ensures agent in ListAgents(p) <==> Lists(last, p, agent) { ListsAgree(last, p, agent); }
      forall p | IsPrincipal(p) ensures !Aliased(p) { PrincipalsAreNoAliases(p); }
    }
  }

  function GrantsIn(principal: string, agents: seq<Agent>): seq<Grant> {
    seq(|agents|, i requires 0 <= i < |agents| => Grant(principal, agents[i].name, agents[i].intents))
  }

  /** Every agent entry, in manifest order. */
  function GrantsOf(manifest: seq<Scope>): seq<Grant> {
    if manifest == [] then []
    else
      var last := manifest[|manifest| - 1];
      GrantsOf(manifest[..|manifest| - 1]) + GrantsIn(last.principal, last.agents)
  }

  lemma GrantsInSnoc(principal: string, agents: seq<Agent>, j: nat)
    requires j < |agents|
    ensures GrantsIn(principal, agents[..j + 1]) ==
            GrantsIn(principal, agents[..j]) + [Grant(principal, agents[j].name, agents[j].intents)]
  {
  }

  lemma GrantsOfSnoc(manifest: seq<Scope>, i: nat)
    requires i < |manifest|
    ensures GrantsOf(manifest[..i + 1]) ==
            GrantsOf(manifest[..i]) + GrantsIn(manifest[i].principal, manifest[i].agents)
  {
    assert manifest[..i + 1][..i] == manifest[..i];
  }

  lemma {:induction false} GrantsOfMembers(manifest: seq<Scope>, principal: string, agent: string, intent: string)
    ensures Grants(manifest, principal, agent, intent) <==>
            exists g :: g in GrantsOf(manifest) && g.principal == principal && g.agent == agent && intent in g.intents
  {
    if manifest == [] {
    } else {
      var n := |manifest| - 1;
      var last := manifest[n];
      var mine := GrantsIn(last.principal, last.agents);
      GrantsOfMembers(manifest[..n], principal, agent, intent);
      if i, j :| GrantsAt(manifest, i, j, principal, agent, intent) {
        if i == n {
          assert mine[j] in mine;
        } else {
          assert GrantsAt(manifest[..n], i, j, principal, agent, intent);
        }
      }
      if i, j :| GrantsAt(manifest[..n], i, j, principal, agent, intent) {
        assert GrantsAt(manifest, i, j, principal, agent, intent);
      }
      if g :| g in mine && g.principal == principal && g.agent == agent && intent in g.intents {
        var j :| 0 <= j < |mine| && mine[j] == g;
        assert GrantsAt(manifest, n, j, principal, agent, intent);
      }
    }
  }

  lemma {:induction false} GrantedToPrincipals(manifest: seq<Scope>)
    requires forall i :: 0 <= i < |manifest| ==> IsPrincipal(manifest[i].principal)
    ensures forall g :: g in GrantsOf(manifest) ==> IsPrincipal(g.principal)
  {
    if manifest == [] {
    } else {
      GrantedToPrincipals(manifest[..|manifest| - 1]);
    }
  }

  ghost predicate Lists(manifest: seq<Scope>, p: string, agent: string) {
    exists i, j :: ListsAt(manifest, i, j, p, agent)
  }

  ghost predicate ListsAt(manifest: seq<Scope>, i: int, j: int, p: string, agent: string) {
    && 0 <= i < |manifest| && 0 <= j < |manifest[i].agents|
    && manifest[i].principal == p && manifest[i].agents[j].name == agent
  }

  lemma {:induction false} GrantsOfListed(manifest: seq<Scope>, p: string, agent: string)
    ensures Lists(manifest, p, agent) <==> exists g :: g in GrantsOf(manifest) && g.principal == p && g.agent == agent
  {
    if manifest == [] {
    } else {
      var n := |manifest| - 1;
      var last := manifest[n];
      var mine := GrantsIn(last.principal, last.agents);
      GrantsOfListed(manifest[..n], p, agent);
      if i, j :| ListsAt(manifest, i, j, p, agent) {
        if i == n {
          assert mine[j] in mine;
        } else {
          assert ListsAt(manifest[..n], i, j, p, agent);
        }
      }
      if i, j :| ListsAt(manifest[..n], i, j, p, agent) {
        assert ListsAt(manifest, i, j, p, agent);
      }
      if g :| g in mine && g.principal == p && g.agent == agent {
        var j :| 0 <= j < |mine| && mine[j] == g;
        assert ListsAt(manifest, n, j, p, agent);
      }
    }
  }

  /** The agent index is keyed by the principal itself and answers exactly, for every string. */
  lemma ListsAgree(manifest: seq<Scope>, p: string, agent: string)
    ensures agent in Get(AgentsOf(GrantsOf(manifest)), p) <==> Lists(manifest, p, agent)
  {
    var gs := GrantsOf(manifest);
    IndexHoldsGrants(gs);
    GrantsOfListed(manifest, p, agent);
    if i :| 0 <= i < |gs| && gs[i].principal == p && gs[i].agent == agent {
      assert gs[i] in gs;
    }
  }

  /** On `p` the index says exactly what the manifest grants, whatever the agent and the intent. */
  ghost predicate AgreesOn(manifest: seq<Scope>, p: string) {
    forall agent, intent ::
      intent in Get(IndexOf(GrantsOf(manifest)), Key(p, agent)) <==> Grants(manifest, p, agent, intent)
  }

  lemma AgreesUnlessAliased(manifest: seq<Scope>, p: string)
    requires ValidManifest(manifest) && !Aliased(p)
    ensures AgreesOn(manifest, p)
  {
    var gs := GrantsOf(manifest);
    IndexHoldsGrants(gs);
    GrantedToPrincipals(manifest);
    forall agent, intent ensures intent in Get(IndexOf(gs), Key(p, agent)) <==> Grants(manifest, p, agent, intent) {
      GrantsOfMembers(manifest, p, agent, intent);
      if i :| 0 <= i < |gs| && Key(gs[i].principal, gs[i].agent) == Key(p, agent) && intent in gs[i].intents {
        assert gs[i] in gs;
        if gs[i].principal != p { SharedKeyIsAlias(p, gs[i].principal, agent, gs[i].agent); }
        assert Key(p, agent)[|p| + 2..] == agent && Key(p, gs[i].agent)[|p| + 2..] == gs[i].agent;
      }
    }
  }

  /** A manifest that grants `q` what the guard then allows its alias `p`. */
  function AliasManifest(p: string, q: string): seq<Scope>
    requires |q| <= |p|
  {
    [Scope(q, [Agent(Key(p, "x")[|q| + 2..], ["/x"])])]
  }

  /** An agent of the alias and an agent of the principal that share a key. */
  lemma AliasSharesKey(p: string, q: string)
    requires AliasOf(p, q)
    ensures |q| <= |p| && Key(p, "x")[|q| + 2..] != "" && Key(q, Key(p, "x")[|q| + 2..]) == Key(p, "x")
  {
    assert |q + "::"| <= |p + "::"|;
    assert Key(p, "x") == (p + "::") + "x";
    assert Key(p, "x")[..|q| + 2] == q + "::";
  }

  lemma OneGrant(q: string, agent: Agent)
    ensures GrantsOf([Scope(q, [agent])]) == [Grant(q, agent.name, agent.intents)]
  {
    var manifest := [Scope(q, [agent])];
    assert manifest[..0] == [];
  }

  lemma OneGrantIsIndexed(g: Grant, intent: string)
    requires intent in g.intents
    ensures intent in Get(IndexOf([g]), Key(g.principal, g.agent))
  {
    IndexSnoc([], g);
    assert [] + [g] == [g];
  }

  lemma AliasIsAllowed(p: string, q: string)
    requires AliasOf(p, q)
    ensures |q| <= |p| && ValidManifest(AliasManifest(p, q)) && !AgreesOn(AliasManifest(p, q), p)
  {
    AliasSharesKey(p, q);
    var agent := Agent(Key(p, "x")[|q| + 2..], ["/x"]);
    OneGrant(q, agent);
    OneGrantIsIndexed(Grant(q, agent.name, agent.intents), "/x");
    assert !Grants(AliasManifest(p, q), p, "x", "/x");
  }

  /**
   * For every string: the guard answers as the manifest does, whichever valid manifest is
   * loaded, exactly when the string is no alias of a principal.
   */
  lemma AgreesIff(p: string)
    ensures (forall manifest :: ValidManifest(manifest) ==> AgreesOn(manifest, p)) <==> !Aliased(p)
  {
    if q :| AliasOf(p, q) {
      AliasIsAllowed(p, q);
    } else {
      forall manifest | ValidManifest(manifest) ensures AgreesOn(manifest, p) { AgreesUnlessAliased(manifest, p); }
    }
  }

  /** There are such strings: a principal with a colon too many, and one that carries an agent along. */
  lemma SomeStringsAreAliases()
    ensures Aliased("svc:bot:") && Aliased("svc:bot::ops")
  {
    assert ColonAt("svc:bot", 3);
    assert AliasOf("svc:bot:", "svc:bot") && AliasOf("svc:bot::ops", "svc:bot");
  }
}
