/** Agent availability, replacement search and step preparation (orchestrator/agents.py). */
module AgentRegistry {
  import opened AgentHealth
  import opened Collections
  import opened Sorting

  function CapabilityName(c: Capability): string {
    match c
    case Router => "router"
    case Execution => "execution"
    case Validation => "validation"
    case Analysis => "analysis"
    case Support => "support"
  }

  /** The enum lookup; None when it raises ValueError. */
  function ParseCapability(name: string): Option<Capability> {
    if name == "router" then Some(Router)
    else if name == "execution" then Some(Execution)
    else if name == "validation" then Some(Validation)
    else if name == "analysis" then Some(Analysis)
    else if name == "support" then Some(Support)
    else None
  }

  /** The registry in registration order; `timeout` is the heartbeat timeout. */
  ghost predicate ValidRegistry(agents: seq<Agent>) {
    forall i, j :: 0 <= i < j < |agents| ==> agents[i].id != agents[j].id
  }

  function Lookup(agents: seq<Agent>, id: string): (found: Option<Agent>)
    ensures found.Some? ==> found.value in agents && found.value.id == id
    ensures found.None? ==> forall a :: a in agents ==> a.id != id
  {
    if agents == [] then None
    else if agents[0].id == id then Some(agents[0])
    else Lookup(agents[1..], id)
  }

  function AvailableOnes(agents: seq<Agent>, timeout: real, now: real): (kept: seq<Agent>)
    ensures forall a :: a in kept <==> a in agents && Available(a, timeout, now)
  {
    if agents == [] then []
    else
      assert agents == Front(agents) + [Last(agents)];
      if Available(Last(agents), timeout, now) then AvailableOnes(Front(agents), timeout, now) + [Last(agents)]
      else AvailableOnes(Front(agents), timeout, now)
  }

  // ----- The ranking -----

  /** A hint that is None or empty is no hint. */
  datatype Hints = Hints(capability: Option<string>, region: Option<string>)

  predicate Given(hint: Option<string>) {
    hint.Some? && hint.value != ""
  }

  function CapabilityNames(capabilities: seq<Capability>): set<string> {
    set c | c in capabilities :: CapabilityName(c)
  }

  predicate MatchesCapability(a: Agent, hint: string) {
    var capability := ParseCapability(hint);
    if capability.Some? then capability.value in a.capabilities else hint in CapabilityNames(a.capabilities)
  }

  /** Both branches of the match say the same: some capability of the agent has that name. */
  lemma MatchingIsByName(a: Agent, hint: string)
    ensures MatchesCapability(a, hint) <==> exists c :: c in a.capabilities && CapabilityName(c) == hint
  {
    assert forall c :: ParseCapability(CapabilityName(c)) == Some(c);
    var capability := ParseCapability(hint);
    assert capability.Some? ==> CapabilityName(capability.value) == hint;
  }

  predicate CapabilityFits(a: Agent, hints: Hints) {
    Given(hints.capability) && MatchesCapability(a, hints.capability.value)
  }

  predicate RegionFits(a: Agent, hints: Hints) {
    Given(hints.region) && a.region == hints.region.value
  }

  /** Lexicographically greater (capability match, region match, stake). */
  predicate Outranks(a: Agent, b: Agent, hints: Hints) {
    if CapabilityFits(a, hints) != CapabilityFits(b, hints) then CapabilityFits(a, hints)
    else if RegionFits(a, hints) != RegionFits(b, hints) then RegionFits(a, hints)
    else a.stake > b.stake
  }

  function Ranking(hints: Hints): (Agent, Agent) -> bool {
    (a, b) => Outranks(a, b, hints)
  }

  lemma RankingIsOrder(hints: Hints)
    ensures StrictWeakOrder(Ranking(hints))
  {
    forall a, b, c
      ensures WeaklyOrdered(Ranking(hints), a, b, c)
    {
    }
  }

  /** The specification: the earliest registered of the highest ranked available candidates. */
  ghost predicate IsBestReplacement(agents: seq<Agent>, hints: Hints, exclude: string, timeout: real, now: real,
                                    best: Option<Agent>)
  {
    var candidates := AvailableOnes(Without(agents, exclude), timeout, now);
    if candidates == [] then best == None
    else exists k :: 0 <= k < |candidates| && best == Some(candidates[k]) && EarliestBest(candidates, Ranking(hints), k)
  }

  function Without(agents: seq<Agent>, id: string): (kept: seq<Agent>)
    ensures forall a :: a in kept <==> a in agents && a.id != id
  {
    if agents == [] then []
    else
      assert agents == Front(agents) + [Last(agents)];
      if Last(agents).id != id then Without(Front(agents), id) + [Last(agents)] else Without(Front(agents), id)
  }

  // ----- Who replaces whom -----

  predicate Up(agents: seq<Agent>, id: string, timeout: real, now: real) {
    var found := Lookup(agents, id);
    found.Some? && Available(found.value, timeout, now)
  }

  /** The replacement that every unavailable agent gets at this instant. */
  function Replacement(agents: seq<Agent>, hints: Hints, timeout: real, now: real): Option<Agent> {
    var sorted := StableSort(AvailableOnes(agents, timeout, now), Ranking(hints));
    if sorted == [] then None else Some(sorted[0])
  }

  lemma ReplacementIsBest(agents: seq<Agent>, hints: Hints, timeout: real, now: real) returns (k: nat)
    ensures var candidates := AvailableOnes(agents, timeout, now);
            if candidates == [] then Replacement(agents, hints, timeout, now) == None
            else k < |candidates| && Replacement(agents, hints, timeout, now) == Some(candidates[k])
                 && EarliestBest(candidates, Ranking(hints), k)
    ensures var r := Replacement(agents, hints, timeout, now);
            r.Some? ==> r.value in agents && Available(r.value, timeout, now)
  {
    k := 0;
    RankingIsOrder(hints);
    if AvailableOnes(agents, timeout, now) != [] {
      k := SortHead(AvailableOnes(agents, timeout, now), Ranking(hints));
    }
  }

  ghost predicate HasCapability(a: Agent, name: string) {
    exists c :: c in a.capabilities && CapabilityName(c) == name
  }

  ghost predicate AsCapable(a: Agent, b: Agent, hints: Hints) {
    var wanted := hints.capability.GetOr("");
    wanted != "" ==> (HasCapability(a, wanted) <==> HasCapability(b, wanted))
  }

  /**
   * What the ranking is for, against any available agent `a`: a wanted capability comes first, a wanted region second,
   * the stake last.  A hint that is absent or empty wants nothing.
   */
  lemma ReplacementIsPreferred(agents: seq<Agent>, hints: Hints, timeout: real, now: real, a: Agent)
    requires a in agents && Available(a, timeout, now)
    ensures Replacement(agents, hints, timeout, now).Some?
    ensures var b, wanted := Replacement(agents, hints, timeout, now).value, hints.capability.GetOr("");
            wanted != "" && HasCapability(a, wanted) ==> HasCapability(b, wanted)
    ensures var b, region := Replacement(agents, hints, timeout, now).value, hints.region.GetOr("");
            region != "" && AsCapable(a, b, hints) && a.region == region ==> b.region == region
    ensures var b, region := Replacement(agents, hints, timeout, now).value, hints.region.GetOr("");
            AsCapable(a, b, hints) && (region == "" || (a.region == region <==> b.region == region)) ==>
              b.stake >= a.stake
  {
    var k := ReplacementIsBest(agents, hints, timeout, now);
    var candidates := AvailableOnes(agents, timeout, now);
    var j :| 0 <= j < |candidates| && candidates[j] == a;
    var b := candidates[k];
    assert !Outranks(a, b, hints) by {
      assert !Ranking(hints)(candidates[j], candidates[k]);
    }
    MatchingIsByName(a, hints.capability.GetOr(""));
    MatchingIsByName(b, hints.capability.GetOr(""));
  }

  lemma LookupFinds(agents: seq<Agent>, a: Agent)
    requires ValidRegistry(agents) && a in agents
    ensures Lookup(agents, a.id) == Some(a)
  {
    var found := Lookup(agents, a.id);
    var i :| 0 <= i < |agents| && agents[i] == a;
    var j :| 0 <= j < |agents| && agents[j] == found.value;
    assert i == j;
  }

  /** Leaving out an agent that is unavailable anyway changes nothing. */
  lemma {:induction false} ExclusionIsMoot(agents: seq<Agent>, id: string, timeout: real, now: real)
    requires forall a :: a in agents && a.id == id ==> !Available(a, timeout, now)
    ensures AvailableOnes(Without(agents, id), timeout, now) == AvailableOnes(agents, timeout, now)
  {
    if agents != [] {
      assert agents == Front(agents) + [Last(agents)];
      ExclusionIsMoot(Front(agents), id, timeout, now);
      if Last(agents).id != id {
        assert Front(Without(agents, id)) == Without(Front(agents), id);
      }
    }
  }

  /**
   * The search as written: filter, sort, then up to four passes over the sorted list.
   * Every pass that finds anything finds the head.
   */
  method FindReplacement(agents: seq<Agent>, hints: Hints, exclude: string, timeout: real, now: real)
    returns (best: Option<Agent>)
    ensures best == Replacement(Without(agents, exclude), hints, timeout, now)
    ensures IsBestReplacement(agents, hints, exclude, timeout, now, best)
  {
    ghost var k := ReplacementIsBest(Without(agents, exclude), hints, timeout, now);
    var active := AvailableOnes(Without(agents, exclude), timeout, now);
    if |active| == 0 {
      return None;
    }
    var sorted := StableSort(active, Ranking(hints));
    RankingIsOrder(hints);
    SortSorts(active, Ranking(hints));
    assert forall i :: 0 < i < |sorted| ==> !Ranking(hints)(sorted[i], sorted[0]);
    if Given(hints.capability) {
      for i := 0 to |sorted|
        invariant i > 0 ==> !(CapabilityFits(sorted[0], hints) && RegionFits(sorted[0], hints))
      {
        if MatchesCapability(sorted[i], hints.capability.value) {
          if Given(hints.region) && sorted[i].region == hints.region.value {
            assert i > 0 ==> !Outranks(sorted[i], sorted[0], hints);
            return Some(sorted[i]);
          }
        }
      }
      for i := 0 to |sorted|
        invariant i > 0 ==> !CapabilityFits(sorted[0], hints)
      {
        if MatchesCapability(sorted[i], hints.capability.value) {
          assert i > 0 ==> !Outranks(sorted[i], sorted[0], hints);
          return Some(sorted[i]);
        }
      }
    }
    if Given(hints.region) {
      for i := 0 to |sorted|
        invariant i > 0 ==> !RegionFits(sorted[0], hints)
        invariant forall j :: 0 <= j < |sorted| ==> !CapabilityFits(sorted[j], hints)
      {
        if sorted[i].region == hints.region.value {
          assert i > 0 ==> !Outranks(sorted[i], sorted[0], hints);
          return Some(sorted[i]);
        }
      }
    }
    return Some(sorted[0]);
  }

  // ----- Step parameters -----

  datatype Param = Text(text: string) | Other(tag: int, truthy: bool)

  const AGENT_KEYS: seq<string> :=
    ["agent", "agentId", "agentAddress", "validator", "student", "teacher", "recipient"]

  /** Replaces `previous` by `substitute` under the agent keys. */
  function Rewritten(params: map<string, Param>, previous: string, substitute: string): (rewritten: map<string, Param>)
    ensures rewritten.Keys == params.Keys
  {
    map k | k in params :: if k in AGENT_KEYS && params[k] == Text(previous) then Text(substitute) else params[k]
  }

  /** Replaces all of `olds` at once. */
  function Substituted(params: map<string, Param>, olds: set<string>, substitute: string): map<string, Param> {
    map k | k in params :: if k in AGENT_KEYS && params[k].Text? && params[k].text in olds then Text(substitute)
                           else params[k]
  }

  /** The unavailable agents among the given ids; an empty id is resolved but never rewritten. */
  function Down(agents: seq<Agent>, ids: seq<string>, timeout: real, now: real): set<string> {
    set id | id in ids && id != "" && !Up(agents, id, timeout, now)
  }

  function HintOf(p: Param): Option<string> {
    if p.Text? then Some(p.text) else None
  }

  predicate Truthy(params: map<string, Param>, key: string) {
    key in params && match params[key] { case Text(t) => t != "" case Other(_, truthy) => truthy }
  }

  function RegionHint(params: map<string, Param>): Option<string> {
    if Truthy(params, "region") then HintOf(params["region"])
    else if Truthy(params, "preferredRegion") then HintOf(params["preferredRegion"])
    else if Truthy(params, "location") then HintOf(params["location"])
    else None
  }

  predicate GivesText(params: map<string, Param>, key: string, t: string) {
    key in params && params[key] == Text(t) && t != ""
  }

  /** A parameter that Python takes for false. */
  predicate GivesNothing(params: map<string, Param>, key: string) {
    key !in params || params[key] == Text("") || (params[key].Other? && !params[key].truthy)
  }

  /** The region is looked for under three keys, the first that gives something deciding. */
  lemma RegionIsFirstGiven(params: map<string, Param>, t: string)
    ensures GivesText(params, "region", t) ==> RegionHint(params) == Some(t)
    ensures GivesNothing(params, "region") && GivesText(params, "preferredRegion", t) ==> RegionHint(params) == Some(t)
    ensures GivesNothing(params, "region") && GivesNothing(params, "preferredRegion")
            && GivesText(params, "location", t) ==>
              RegionHint(params) == Some(t)
    ensures RegionHint(params).Some? ==> RegionHint(params) != Some("")
  {
  }

  class Step {
    const tool: Option<string>
    var params: map<string, Param>

    constructor (tool: Option<string>, params: map<string, Param>)
      ensures this.tool == tool && this.params == params
    {
      this.tool, this.params := tool, params;
    }

    method RewriteParams(previous: string, substitute: string)
      modifies this
      ensures params == Rewritten(old(params), previous, substitute)
    {
      for i := 0 to |AGENT_KEYS|
        invariant params.Keys == old(params).Keys
        invariant forall k :: k in params ==>
          params[k] == if k in AGENT_KEYS[..i] && old(params)[k] == Text(previous) then Text(substitute)
                       else old(params)[k]
      {
        var key := AGENT_KEYS[i];
        if key in params && params[key] == Text(previous) {
          params := params[key := Text(substitute)];
        }
      }
    }
  }

  // ----- The lives of the registered agents -----

  /** Every record reflects what happened to its agent since it was registered. */
  ghost predicate LivesFit(agents: seq<Agent>, lives: map<string, seq<Life>>, timeout: real, now: real) {
    && ValidRegistry(agents)
    && (forall a :: a in agents ==> a.id in lives && Reflects(a, lives[a.id], timeout, now))
    && (forall id :: id in lives ==> Lookup(agents, id).Some?)
  }

  /** The agent is registered and in service, by its life. */
  predicate Serves(lives: map<string, seq<Life>>, id: string, timeout: real, now: real) {
    id in lives && InService(lives[id], timeout, now)
  }

  lemma UpMeansServes(agents: seq<Agent>, lives: map<string, seq<Life>>, id: string, timeout: real, clock: real,
                      now: real)
    requires LivesFit(agents, lives, timeout, clock) && clock <= now
    ensures Up(agents, id, timeout, now) <==> Serves(lives, id, timeout, now)
  {
    var found := Lookup(agents, id);
    if found.Some? {
      ReflectsLater(found.value, lives[id], timeout, clock, now);
      RecordTellsTheLife(found.value, lives[id], timeout, now);
    }
  }

  /** Who is assigned, in terms of the agents' lives. */
  lemma AssignedServe(agents: seq<Agent>, lives: map<string, seq<Life>>, id: string, hints: Hints, timeout: real,
                      clock: real, now: real)
    requires LivesFit(agents, lives, timeout, clock) && clock <= now
    ensures var chosen := Assigned(agents, id, hints, timeout, now);
            && (Serves(lives, id, timeout, now) ==> chosen == Some(id))
            && (chosen.Some? ==> Serves(lives, chosen.value, timeout, now))
            && (chosen.None? ==> forall x :: !Serves(lives, x, timeout, now))
  {
    AssignedAreUp(agents, hints, timeout, now);
    forall x
      ensures Up(agents, x, timeout, now) <==> Serves(lives, x, timeout, now)
    {
      UpMeansServes(agents, lives, x, timeout, clock, now);
    }
  }

  /** Everybody chosen is in service when its id is looked at, and whoever is in service then is kept. */
  ghost predicate AllServe(lives: map<string, seq<Life>>, ids: seq<string>, timeout: real, readings: seq<real>,
                           chosen: seq<string>) {
    && |chosen| == |ids| == |readings|
    && forall i :: 0 <= i < |ids| ==>
         && Serves(lives, chosen[i], timeout, readings[i])
         && (Serves(lives, ids[i], timeout, readings[i]) ==> chosen[i] == ids[i])
  }

  lemma ResolvedServe(agents: seq<Agent>, lives: map<string, seq<Life>>, ids: seq<string>, hints: Hints, timeout: real,
                      clock: real, readings: seq<real>, chosen: seq<string>)
    requires LivesFit(agents, lives, timeout, clock) && |readings| == |ids| == |chosen|
    requires forall i :: 0 <= i < |readings| ==> clock <= readings[i]
    requires Resolves(agents, ids, hints, timeout, readings, chosen)
    ensures AllServe(lives, ids, timeout, readings, chosen)
  {
    forall i | 0 <= i < |ids|
      ensures Serves(lives, chosen[i], timeout, readings[i])
      ensures Serves(lives, ids[i], timeout, readings[i]) ==> chosen[i] == ids[i]
    {
      assert Assigned(agents, ids[i], hints, timeout, readings[i]) == Some(chosen[i]);
      AssignedServe(agents, lives, ids[i], hints, timeout, clock, readings[i]);
    }
  }

  lemma FitsLater(agents: seq<Agent>, lives: map<string, seq<Life>>, timeout: real, now: real, later: real)
    requires LivesFit(agents, lives, timeout, now) && now <= later
    ensures LivesFit(agents, lives, timeout, later)
  {
    forall a | a in agents
      ensures Reflects(a, lives[a.id], timeout, later)
    {
      ReflectsLater(a, lives[a.id], timeout, now, later);
    }
  }

  /** The agent of this id is changed, and no other. */
  ghost predicate ChangesOne(before: seq<Agent>, after: seq<Agent>, id: string, change: Agent -> Agent) {
    && |after| == |before|
    && forall i :: 0 <= i < |after| ==> after[i] == if before[i].id == id then change(before[i]) else before[i]
  }

  /** One agent's record and life change together. */
  lemma OneChangeFits(agents: seq<Agent>, lives: map<string, seq<Life>>, timeout: real, now: real, i: nat,
                      change: Agent -> Agent, life: seq<Life>)
    requires LivesFit(agents, lives, timeout, now) && i < |agents|
    requires change(agents[i]).id == agents[i].id && Reflects(change(agents[i]), life, timeout, now)
    ensures var agents' := agents[i := change(agents[i])];
            && LivesFit(agents', lives[agents[i].id := life], timeout, now)
            && ChangesOne(agents, agents', agents[i].id, change)
  {
    var a := change(agents[i]);
    var agents', lives' := agents[i := a], lives[a.id := life];
    forall b | b in agents'
      ensures b.id in lives' && Reflects(b, lives'[b.id], timeout, now)
    {
      var k :| 0 <= k < |agents'| && agents'[k] == b;
      if k != i {
        assert b == agents[k] && b in agents && b.id != a.id;
      }
    }
    SameIdsFound(agents, agents');
  }

  /** Changes that keep the ids keep the registry valid and everybody in it. */
  lemma SameIdsFound(before: seq<Agent>, after: seq<Agent>)
    requires ValidRegistry(before) && |after| == |before|
    requires forall i :: 0 <= i < |before| ==> after[i].id == before[i].id
    ensures ValidRegistry(after)
    ensures forall id :: Lookup(before, id).Some? ==> Lookup(after, id).Some?
  {
    forall id | Lookup(before, id).Some?
      ensures Lookup(after, id).Some?
    {
      var i :| 0 <= i < |before| && before[i] == Lookup(before, id).value;
      assert after[i] in after;
    }
  }

  class Registry {
    const timeout: real
    var agents: seq<Agent>  // in registration order
    ghost var lives: map<string, seq<Life>>
    ghost var clock: real

    ghost predicate Valid()
      reads this
    {
      clock >= 0.0 && LivesFit(agents, lives, timeout, clock)
    }

    constructor (timeout: real)
      ensures Valid() && this.timeout == timeout && agents == [] && lives == map[] && clock == 0.0
    {
      this.timeout, agents, lives, clock := timeout, [], map[], 0.0;
    }

    /** A new agent is active and has sent no heartbeat. */
    method Register(id: string, region: string, capabilities: seq<Capability>, stake: real, now: real)
      returns (accepted: bool)
      requires Valid() && clock <= now
      modifies this
      ensures Valid() && clock == now && (accepted <==> id !in old(lives))
      ensures agents == if accepted then old(agents) + [Agent(id, region, capabilities, stake, Active, None)]
                        else old(agents)
      ensures lives == if accepted then old(lives)[id := []] else old(lives)
    {
      FitsLater(agents, lives, timeout, clock, now);
      clock := now;
      var found := Lookup(agents, id);
      if found.Some? {
        assert found.value.id in lives;
        return false;
      }
      NewAgentFits(agents, lives, timeout, now, Registered(id, region, capabilities, stake));
      agents := agents + [Registered(id, region, capabilities, stake)];
      lives := lives[id := []];
      return true;
    }

    /** What the operator changes; `authorised` is not asked for here. */
    method Update(id: string, edit: Edit, now: real) returns (accepted: bool)
      requires Valid() && clock <= now
      modifies this
      ensures Valid() && clock == now && (accepted <==> id in old(lives))
      ensures lives == if accepted then old(lives)[id := LifeAfterEdit(old(lives)[id], edit)] else old(lives)
      ensures if accepted
              then ChangesOne(old(agents), agents, id, (a: Agent) =>
                                Agent(id, if edit.region in {None, Some("")} then a.region else edit.region.value,
                                      if edit.capabilities.Some? then edit.capabilities.value else a.capabilities,
                                      if edit.stake.Some? then edit.stake.value else a.stake,
                                      if edit.status.Some? then edit.status.value else a.status, a.lastHeartbeat))
              else agents == old(agents)
    {
      FitsLater(agents, lives, timeout, clock, now);
      clock := now;
      var i := Place(agents, id);
      if i == |agents| {
        return false;
      }
      EditReflects(agents[i], edit, lives[id], timeout, now);
      OneChangeFits(agents, lives, timeout, now, i, (a: Agent) => Edited(a, edit), LifeAfterEdit(lives[id], edit));
      agents := agents[i := Edited(agents[i], edit)];
      lives := lives[id := LifeAfterEdit(lives[id], edit)];
      return true;
    }

    /** Forgets an agent and its life. */
    method Deregister(id: string, now: real) returns (accepted: bool)
      requires Valid() && clock <= now
      modifies this
      ensures Valid() && clock == now && (accepted <==> id in old(lives))
      ensures lives == old(lives) - {id} && agents == Without(old(agents), id)
    {
      FitsLater(agents, lives, timeout, clock, now);
      clock := now;
      accepted := Lookup(agents, id).Some?;
      FewerFit(agents, lives, timeout, now, id);
      assert !accepted ==> id !in lives;
      agents := Without(agents, id);
      lives := lives - {id};
    }

    /**
     * Keeps an agent that is in service and replaces any other by one that is; None stands for the error that nobody is
     * in service.
     */
    method EnsureAssignment(id: string, hints: Hints, now: real) returns (chosen: Option<string>)
      requires Valid() && clock <= now
      ensures chosen == Assigned(agents, id, hints, timeout, now)
      ensures Serves(lives, id, timeout, now) ==> chosen == Some(id)
      ensures chosen.Some? ==> Serves(lives, chosen.value, timeout, now)
      ensures chosen.None? ==> forall x :: !Serves(lives, x, timeout, now)
    {
      AssignedServe(agents, lives, id, hints, timeout, clock, now);
      var found := Lookup(agents, id);
      if found.Some? && Available(found.value, timeout, now) {
        return Some(id);
      }
      ExclusionHolds(agents, id, timeout, now);
      var replacement := FindReplacement(agents, hints, id, timeout, now);
      return if replacement.None? then None else Some(replacement.value.id);
    }

    /**
     * Resolves the ids one after the other, each with its own reading of the clock, and rewrites the parameters on the
     * way.  None stands for the error that no agent is available for some id; later ids are then not looked at.
     */
    method PrepareStep(step: Step, agentIds: seq<string>, readings: seq<real>) returns (resolved: Option<seq<string>>)
      requires Valid() && |readings| == |agentIds| && forall i :: 0 <= i < |readings| ==> clock <= readings[i]
      modifies step
      ensures var hints := Hints(capability := step.tool, region := RegionHint(old(step.params)));
              var n := FirstFailure(agents, agentIds, hints, timeout, readings);
              && (resolved.Some? <==> n == |agentIds|)
              && (resolved.Some? ==> Resolves(agents, agentIds, hints, timeout, readings, resolved.value))
              && step.params == AfterIds(agents, old(step.params), agentIds, hints, timeout, readings, n)
      ensures resolved.Some? ==> AllServe(lives, agentIds, timeout, readings, resolved.value)
    {
      ghost var params := step.params;
      var hints := Hints(step.tool, RegionHint(step.params));
      var ids: seq<string> := [];
      for i := 0 to |agentIds|
        invariant |ids| == i && Prepared(agents, params, agentIds, hints, timeout, readings, ids, step.params)
      {
        var id := agentIds[i];
        var chosen := EnsureAssignment(id, hints, readings[i]);
        if chosen.None? {
          FirstFailureIs(agents, agentIds, hints, timeout, readings, ids);
          return None;
        }
        PreparedMore(agents, params, agentIds, hints, timeout, readings, ids, chosen.value, step.params);
        ids := ids + [chosen.value];
        if chosen.value != id && id != "" {
          step.RewriteParams(id, chosen.value);
        }
      }
      FirstFailureIs(agents, agentIds, hints, timeout, readings, ids);
      ResolvedServe(agents, lives, agentIds, hints, timeout, clock, readings, ids);
      return Some(ids);
    }

    /** Marks agents whose last heartbeat is too old. */
    method WatchdogPass(now: real)
      requires Valid() && clock <= now
      modifies this
      ensures Valid() && clock == now && OverdueAreOffline(old(agents), agents, timeout, now)
      ensures lives == AllChecked(old(lives), now)
    {
      FitsLater(agents, lives, timeout, clock, now);
      ghost var before := agents;
      for i := 0 to |agents|
        invariant lives == old(lives) && MarkedUpTo(before, agents, i, timeout, now)
      {
        var entry := agents[i];
        if entry.status != Suspended && HasHeartbeat(entry) && !(now - entry.lastHeartbeat.value <= timeout) {
          agents := agents[i := entry.(status := Offline)];
        }
      }
      CheckedFit(before, agents, lives, timeout, now);
      MarkedAreOverdue(before, agents, timeout, now);
      lives := AllChecked(lives, now);
      clock := now;
    }

    /** `authorised` says whether the secret matched. */
    method RecordHeartbeat(id: string, authorised: bool, capabilities: Option<seq<Capability>>, now: real)
      returns (accepted: bool)
      requires Valid() && clock <= now && now > 0.0
      modifies this
      ensures Valid() && clock == now && (accepted <==> authorised && id in old(lives))
      ensures lives == if accepted then old(lives)[id := old(lives)[id] + [Beat(now)]] else old(lives)
      ensures if accepted
              then ChangesOne(old(agents), agents, id, (a: Agent) =>
                                Agent(id, a.region, if capabilities.Some? then capabilities.value else a.capabilities,
                                      a.stake, if a.status == Suspended then Suspended else Active, Some(now)))
              else agents == old(agents)
    {
      FitsLater(agents, lives, timeout, clock, now);
      clock := now;
      var i := Place(agents, id);
      if i == |agents| || !authorised {
        return false;
      }
      BeatReflects(agents[i], capabilities, lives[id], timeout, now);
      OneChangeFits(agents, lives, timeout, now, i, (a: Agent) => Beating(a, capabilities, now),
                    lives[id] + [Beat(now)]);
      agents := agents[i := Beating(agents[i], capabilities, now)];
      lives := lives[id := lives[id] + [Beat(now)]];
      return true;
    }
  }

  /** Where the agent of an id is, or the number of agents. */
  function Place(agents: seq<Agent>, id: string): (i: nat)
    ensures i <= |agents| && (i < |agents| ==> agents[i].id == id && agents[i] in agents)
    ensures i == |agents| <==> Lookup(agents, id).None?
    ensures forall j :: 0 <= j < i ==> agents[j].id != id
  {
    NoneBeforeFirst(agents, (a: Agent) => a.id, id);
    FirstWith(agents, (a: Agent) => a.id, id)
  }

  lemma NewAgentFits(agents: seq<Agent>, lives: map<string, seq<Life>>, timeout: real, now: real, a: Agent)
    requires LivesFit(agents, lives, timeout, now) && Lookup(agents, a.id).None? && Reflects(a, [], timeout, now)
    ensures LivesFit(agents + [a], lives[a.id := []], timeout, now)
  {
    var agents', lives' := agents + [a], lives[a.id := []];
    forall b | b in agents'
      ensures b.id in lives' && Reflects(b, lives'[b.id], timeout, now)
    {
      assert b != a ==> b in agents;
    }
    forall id | id in lives'
      ensures Lookup(agents', id).Some?
    {
      assert id == a.id ==> a in agents';
      assert id != a.id ==> Lookup(agents, id).value in agents';
    }
  }

  lemma FewerFit(agents: seq<Agent>, lives: map<string, seq<Life>>, timeout: real, now: real, id: string)
    requires LivesFit(agents, lives, timeout, now)
    ensures LivesFit(Without(agents, id), lives - {id}, timeout, now)
  {
    WithoutIsValid(agents, id);
    forall x | x in lives - {id}
      ensures Lookup(Without(agents, id), x).Some?
    {
      assert Lookup(agents, x).value in Without(agents, id);
    }
  }

  lemma {:induction false} WithoutIsValid(agents: seq<Agent>, id: string)
    requires ValidRegistry(agents)
    ensures ValidRegistry(Without(agents, id))
  {
    if agents != [] {
      var front := Front(agents);
      WithoutIsValid(front, id);
      forall a | a in Without(front, id)
        ensures a.id != Last(agents).id
      {
        var i :| 0 <= i < |front| && front[i] == a;
      }
    }
  }

  ghost predicate MarkedUpTo(before: seq<Agent>, agents: seq<Agent>, n: nat, timeout: real, now: real) {
    && |agents| == |before|
    && forall j :: 0 <= j < |agents| ==> agents[j] == if j < n then Watched(before[j], timeout, now) else before[j]
  }

  ghost function AllChecked(lives: map<string, seq<Life>>, now: real): map<string, seq<Life>> {
    map id | id in lives :: lives[id] + [Checked(now)]
  }

  /** The agents whose heartbeat is too old are offline, unless suspended; nothing else changes. */
  ghost predicate OverdueAreOffline(before: seq<Agent>, after: seq<Agent>, timeout: real, now: real) {
    && |after| == |before|
    && forall i :: 0 <= i < |after| ==>
         var a, beat := before[i], before[i].lastHeartbeat.GetOr(0.0);
         after[i] == if a.status != Suspended && beat != 0.0 && now - beat > timeout
                     then Agent(a.id, a.region, a.capabilities, a.stake, Offline, Some(beat)) else a
  }

  lemma MarkedAreOverdue(before: seq<Agent>, after: seq<Agent>, timeout: real, now: real)
    requires MarkedUpTo(before, after, |after|, timeout, now)
    ensures OverdueAreOffline(before, after, timeout, now)
  {
  }

  lemma CheckedFit(before: seq<Agent>, agents: seq<Agent>, lives: map<string, seq<Life>>, timeout: real, now: real)
    requires LivesFit(before, lives, timeout, now) && MarkedUpTo(before, agents, |agents|, timeout, now)
    ensures LivesFit(agents, AllChecked(lives, now), timeout, now)
  {
    SameIdsFound(before, agents);
    forall a | a in agents
      ensures a.id in lives && Reflects(a, lives[a.id] + [Checked(now)], timeout, now)
    {
      var i :| 0 <= i < |agents| && agents[i] == a;
      assert before[i] in before;
      CheckReflects(before[i], lives[a.id], timeout, now);
    }
  }

  function Assigned(agents: seq<Agent>, id: string, hints: Hints, timeout: real, now: real): Option<string> {
    if Up(agents, id, timeout, now) then Some(id)
    else
      var r := Replacement(agents, hints, timeout, now);
      if r.None? then None else Some(r.value.id)
  }

  /** The first id that nobody is available for at its reading of the clock, or the number of ids. */
  function FirstFailure(agents: seq<Agent>, ids: seq<string>, hints: Hints, timeout: real, clock: seq<real>): (n: nat)
    requires |clock| == |ids|
    ensures n <= |ids|
    ensures n < |ids| ==> Assigned(agents, ids[n], hints, timeout, clock[n]).None?
    ensures forall i :: 0 <= i < n ==> Assigned(agents, ids[i], hints, timeout, clock[i]).Some?
  {
    if ids == [] || Assigned(agents, ids[0], hints, timeout, clock[0]).None? then 0
    else 1 + FirstFailure(agents, ids[1..], hints, timeout, clock[1..])
  }

  /** `chosen` are the assignments of the first ids, each at its own reading of the clock. */
  ghost predicate Resolves(agents: seq<Agent>, ids: seq<string>, hints: Hints, timeout: real, clock: seq<real>,
                           chosen: seq<string>)
    requires |clock| == |ids|
  {
    && |chosen| <= |ids|
    && forall i :: 0 <= i < |chosen| ==> Assigned(agents, ids[i], hints, timeout, clock[i]) == Some(chosen[i])
  }

  lemma ResolvesMore(agents: seq<Agent>, ids: seq<string>, hints: Hints, timeout: real, clock: seq<real>,
                     chosen: seq<string>, next: string)
    requires |clock| == |ids| && Resolves(agents, ids, hints, timeout, clock, chosen) && |chosen| < |ids|
    requires Assigned(agents, ids[|chosen|], hints, timeout, clock[|chosen|]) == Some(next)
    ensures Resolves(agents, ids, hints, timeout, clock, chosen + [next])
  {
  }

  lemma FirstFailureIs(agents: seq<Agent>, ids: seq<string>, hints: Hints, timeout: real, clock: seq<real>,
                       chosen: seq<string>)
    requires |clock| == |ids| && Resolves(agents, ids, hints, timeout, clock, chosen)
    requires |chosen| < |ids| ==> Assigned(agents, ids[|chosen|], hints, timeout, clock[|chosen|]).None?
    ensures FirstFailure(agents, ids, hints, timeout, clock) == |chosen|
  {
  }

  /** The parameters after the first `n` ids, one rewrite after the other. */
  function AfterIds(agents: seq<Agent>, params: map<string, Param>, ids: seq<string>, hints: Hints, timeout: real,
                    clock: seq<real>, n: nat): map<string, Param>
    requires n <= |ids| == |clock|
  {
    if n == 0 then params
    else
      var before := AfterIds(agents, params, ids, hints, timeout, clock, n - 1);
      var id := ids[n - 1];
      var chosen := Assigned(agents, id, hints, timeout, clock[n - 1]);
      if chosen.Some? && chosen.value != id && id != "" then Rewritten(before, id, chosen.value) else before
  }

  /** The first ids are resolved and the parameters rewritten accordingly. */
  ghost predicate Prepared(agents: seq<Agent>, before: map<string, Param>, ids: seq<string>, hints: Hints,
                           timeout: real, clock: seq<real>, chosen: seq<string>, params: map<string, Param>) {
    && |clock| == |ids| && Resolves(agents, ids, hints, timeout, clock, chosen)
    && params == AfterIds(agents, before, ids, hints, timeout, clock, |chosen|)
  }

  lemma PreparedMore(agents: seq<Agent>, before: map<string, Param>, ids: seq<string>, hints: Hints, timeout: real,
                     clock: seq<real>, chosen: seq<string>, next: string, params: map<string, Param>)
    requires Prepared(agents, before, ids, hints, timeout, clock, chosen, params) && |chosen| < |ids|
    requires Assigned(agents, ids[|chosen|], hints, timeout, clock[|chosen|]) == Some(next)
    ensures var id := ids[|chosen|];
            Prepared(agents, before, ids, hints, timeout, clock, chosen + [next],
                     if next != id && id != "" then Rewritten(params, id, next) else params)
  {
    ResolvesMore(agents, ids, hints, timeout, clock, chosen, next);
  }

  ghost predicate OneInstant(clock: seq<real>, now: real) {
    forall i :: 0 <= i < |clock| ==> clock[i] == now
  }

  /**
   * At one instant the rewrites are a simultaneous substitution of one replacement for all unavailable ids, and a
   * preparation that fails has rewritten nothing.
   */
  lemma OneInstantSubstitutes(agents: seq<Agent>, params: map<string, Param>, ids: seq<string>, hints: Hints,
                              timeout: real, clock: seq<real>, now: real)
    requires ValidRegistry(agents) && |clock| == |ids| && OneInstant(clock, now)
    ensures var n := FirstFailure(agents, ids, hints, timeout, clock);
            var r := Replacement(agents, hints, timeout, now);
            && (n < |ids| <==> r.None? && ids != [])
            && AfterIds(agents, params, ids, hints, timeout, clock, n) ==
                 if r.None? then params else Substituted(params, Down(agents, ids, timeout, now), r.value.id)
  {
    AssignedAreUp(agents, hints, timeout, now);
    var n, r := FirstFailure(agents, ids, hints, timeout, clock), Replacement(agents, hints, timeout, now);
    if r.Some? {
      AfterIdsSubstitutes(agents, params, ids, hints, timeout, clock, now, |ids|);
      assert ids[..|ids|] == ids;
    }
  }

  lemma {:induction false} AfterIdsSubstitutes(agents: seq<Agent>, params: map<string, Param>, ids: seq<string>,
                                               hints: Hints, timeout: real, clock: seq<real>, now: real, n: nat)
    requires ValidRegistry(agents) && n <= |ids| == |clock| && OneInstant(clock, now)
    requires Replacement(agents, hints, timeout, now).Some?
    ensures AfterIds(agents, params, ids, hints, timeout, clock, n) ==
            Substituted(params, Down(agents, ids[..n], timeout, now), Replacement(agents, hints, timeout, now).value.id)
  {
    AssignedAreUp(agents, hints, timeout, now);
    var substitute := Replacement(agents, hints, timeout, now).value.id;
    if n == 0 {
      NothingToSubstitute(params, substitute);
    } else {
      AfterIdsSubstitutes(agents, params, ids, hints, timeout, clock, now, n - 1);
      assert ids[..n] == ids[..n - 1] + [ids[n - 1]];
      OneMoreId(agents, params, ids[..n - 1], ids[n - 1], hints, timeout, now);
    }
  }

  lemma OneMoreId(agents: seq<Agent>, params: map<string, Param>, ids: seq<string>, id: string, hints: Hints,
                  timeout: real, now: real)
    requires ValidRegistry(agents) && Replacement(agents, hints, timeout, now).Some?
    ensures var substitute := Replacement(agents, hints, timeout, now).value.id;
            var chosen := Assigned(agents, id, hints, timeout, now).value;
            var before := Substituted(params, Down(agents, ids, timeout, now), substitute);
            Substituted(params, Down(agents, ids + [id], timeout, now), substitute) ==
            if chosen != id && id != "" then Rewritten(before, id, chosen) else before
  {
    AssignedAreUp(agents, hints, timeout, now);
    DownGrows(agents, ids, id, timeout, now);
    var substitute := Replacement(agents, hints, timeout, now).value.id;
    if id != "" && !Up(agents, id, timeout, now) {
      RewriteIsSubstitution(params, Down(agents, ids, timeout, now), id, substitute);
    }
  }

  /**
   * A witness that it takes one instant: the only agent replaces the first id, times out before the second id is looked
   * at, and the preparation fails with its parameters half rewritten.
   */
  lemma AgentTimesOutMidway()
    ensures var agent := Agent("a", "eu", [], 1.0, Active, Some(1.0));
            var hints, params := Hints(None, None), map["agent" := Text("x"), "recipient" := Text("y")];
            && FirstFailure([agent], ["x", "y"], hints, 10.0, [5.0, 11.0]) == 1
            && AfterIds([agent], params, ["x", "y"], hints, 10.0, [5.0, 11.0], 1) ==
                 map["agent" := Text("a"), "recipient" := Text("y")]
  {
    var agent := Agent("a", "eu", [], 1.0, Active, Some(1.0));
    var hints, params := Hints(None, None), map["agent" := Text("x"), "recipient" := Text("y")];
    OnlyAgent(agent, hints, 10.0, 5.0);
    OnlyAgent(agent, hints, 10.0, 11.0);
    assert Assigned([agent], "x", hints, 10.0, 5.0) == Some("a");
    assert Assigned([agent], "y", hints, 10.0, 11.0) == None;
    FirstFailureIs([agent], ["x", "y"], hints, 10.0, [5.0, 11.0], ["a"]);
    assert AfterIds([agent], params, ["x", "y"], hints, 10.0, [5.0, 11.0], 0) == params;
    assert AGENT_KEYS[0] == "agent";
  }

  /** The rewrites of a preparation: each id that got another agent is replaced by it under the agent keys. */
  function Rewrites(params: map<string, Param>, ids: seq<string>, chosen: seq<string>): map<string, Param>
    requires |ids| == |chosen|
  {
    if ids == [] then params
    else
      var before := Rewrites(params, Front(ids), Front(chosen));
      if Last(chosen) != Last(ids) && Last(ids) != "" then Rewritten(before, Last(ids), Last(chosen)) else before
  }

  ghost predicate ReplacedAt(value: Param, ids: seq<string>, chosen: seq<string>, i: int)
    requires |ids| == |chosen|
  {
    0 <= i < |ids| && value == Text(ids[i]) && ids[i] != "" && chosen[i] != ids[i]
  }

  ghost predicate Replaced(value: Param, ids: seq<string>, chosen: seq<string>)
    requires |ids| == |chosen|
  {
    exists i :: ReplacedAt(value, ids, chosen, i)
  }

  /** An agent that was replaced is chosen for no later id. */
  ghost predicate NoWayBack(ids: seq<string>, chosen: seq<string>)
    requires |ids| == |chosen|
  {
    forall i, j :: 0 <= i <= j < |ids| && chosen[i] != ids[i] ==> chosen[j] != ids[i]
  }

  /** Then no rewrite is undone: a key changes exactly when its agent was replaced. */
  lemma {:induction false} KeyAfterRewrites(params: map<string, Param>, key: string, ids: seq<string>,
                                            chosen: seq<string>)
    requires |ids| == |chosen| && NoWayBack(ids, chosen) && key in params
    ensures var after := Rewrites(params, ids, chosen);
            && key in after
            && (after[key] != params[key] <==> key in AGENT_KEYS && Replaced(params[key], ids, chosen))
  {
    if ids == [] {
      assert !Replaced(params[key], ids, chosen);
    } else {
      var last := |ids| - 1;
      KeyAfterRewrites(params, key, Front(ids), Front(chosen));
      ReplacedMore(params[key], ids, chosen);
      if Replaced(params[key], ids, chosen) {
        var i :| ReplacedAt(params[key], ids, chosen, i);
        assert chosen[last] != ids[i];
      }
    }
  }

  lemma ReplacedMore(value: Param, ids: seq<string>, chosen: seq<string>)
    requires |ids| == |chosen| && ids != []
    ensures Replaced(value, ids, chosen) <==>
              Replaced(value, Front(ids), Front(chosen)) || ReplacedAt(value, ids, chosen, |ids| - 1)
  {
    if i :| ReplacedAt(value, Front(ids), Front(chosen), i) {
      assert ReplacedAt(value, ids, chosen, i);
    }
    if i :| ReplacedAt(value, ids, chosen, i) {
      assert i < |ids| - 1 ==> ReplacedAt(value, Front(ids), Front(chosen), i);
    }
  }

  lemma {:induction false} AfterIdsAreRewrites(agents: seq<Agent>, params: map<string, Param>, ids: seq<string>,
                                               hints: Hints, timeout: real, clock: seq<real>, chosen: seq<string>)
    requires |clock| == |ids| && Resolves(agents, ids, hints, timeout, clock, chosen)
    ensures AfterIds(agents, params, ids, hints, timeout, clock, |chosen|) ==
            Rewrites(params, ids[..|chosen|], chosen)
  {
    if chosen != [] {
      var n := |chosen|;
      AfterIdsAreRewrites(agents, params, ids, hints, timeout, clock, Front(chosen));
      assert Front(ids[..n]) == ids[..n - 1];
      assert Assigned(agents, ids[n - 1], hints, timeout, clock[n - 1]) == Some(chosen[n - 1]);
    }
  }

  /** Time does not run backwards between the readings. */
  ghost predicate Monotone(clock: seq<real>) {
    forall i, j :: 0 <= i <= j < |clock| ==> clock[i] <= clock[j]
  }

  /** The value names an agent that was found down when its turn came, among the first `n` ids. */
  ghost predicate FoundDown(agents: seq<Agent>, value: Param, ids: seq<string>, timeout: real, clock: seq<real>, n: nat)
    requires n <= |ids| == |clock|
  {
    exists i :: 0 <= i < n && value == Text(ids[i]) && ids[i] != "" && !Up(agents, ids[i], timeout, clock[i])
  }

  /**
   * Exactly when a preparation that stopped after `n` ids, by a failure or not, leaves the parameters alone: no agent
   * key names an agent that was found down.  A later rewrite cannot undo an earlier one: it writes an agent that is up
   * by then, and the agent that was replaced is not.
   */
  lemma UntouchedUnlessFoundDown(agents: seq<Agent>, params: map<string, Param>, ids: seq<string>, hints: Hints,
                                 timeout: real, clock: seq<real>, n: nat)
    requires ValidRegistry(agents) && |clock| == |ids| && Monotone(clock)
    requires n <= FirstFailure(agents, ids, hints, timeout, clock)
    ensures AfterIds(agents, params, ids, hints, timeout, clock, n) == params <==>
            forall k :: k in params && k in AGENT_KEYS ==> !FoundDown(agents, params[k], ids, timeout, clock, n)
  {
    var chosen := Choices(agents, ids, hints, timeout, clock, n);
    ChoicesNeverReturn(agents, ids, hints, timeout, clock, chosen);
    AfterIdsAreRewrites(agents, params, ids, hints, timeout, clock, chosen);
    var after := Rewrites(params, ids[..n], chosen);
    RewritesKeepKeys(params, ids[..n], chosen);
    forall k | k in params
      ensures after[k] != params[k] <==> k in AGENT_KEYS && FoundDown(agents, params[k], ids, timeout, clock, n)
    {
      KeyAfterRewrites(params, k, ids[..n], chosen);
      ReplacedMeansFoundDown(agents, params[k], ids, hints, timeout, clock, chosen);
    }
  }

  lemma {:induction false} RewritesKeepKeys(params: map<string, Param>, ids: seq<string>, chosen: seq<string>)
    requires |ids| == |chosen|
    ensures Rewrites(params, ids, chosen).Keys == params.Keys
  {
    if ids != [] {
      RewritesKeepKeys(params, Front(ids), Front(chosen));
    }
  }

  /** The assignments of the first `n` ids. */
  lemma {:induction false} Choices(agents: seq<Agent>, ids: seq<string>, hints: Hints, timeout: real, clock: seq<real>,
                                   n: nat)
    returns (chosen: seq<string>)
    requires |clock| == |ids| && n <= FirstFailure(agents, ids, hints, timeout, clock)
    ensures |chosen| == n && Resolves(agents, ids, hints, timeout, clock, chosen)
    decreases n
  {
    chosen := [];
    if n > 0 {
      chosen := Choices(agents, ids, hints, timeout, clock, n - 1);
      var next := Assigned(agents, ids[n - 1], hints, timeout, clock[n - 1]).value;
      ResolvesMore(agents, ids, hints, timeout, clock, chosen, next);
      chosen := chosen + [next];
    }
  }

  lemma ChoiceIsUp(agents: seq<Agent>, ids: seq<string>, hints: Hints, timeout: real, clock: seq<real>,
                   chosen: seq<string>, i: nat)
    requires ValidRegistry(agents) && |clock| == |ids| && Resolves(agents, ids, hints, timeout, clock, chosen)
    requires i < |chosen|
    ensures Up(agents, chosen[i], timeout, clock[i]) && (chosen[i] == ids[i] <==> Up(agents, ids[i], timeout, clock[i]))
  {
    AssignedAreUp(agents, hints, timeout, clock[i]);
    assert Assigned(agents, ids[i], hints, timeout, clock[i]) == Some(chosen[i]);
  }

  lemma ChoicesNeverReturn(agents: seq<Agent>, ids: seq<string>, hints: Hints, timeout: real, clock: seq<real>,
                           chosen: seq<string>)
    requires ValidRegistry(agents) && |clock| == |ids| && Monotone(clock)
    requires Resolves(agents, ids, hints, timeout, clock, chosen)
    ensures NoWayBack(ids[..|chosen|], chosen)
  {
    forall i, j | 0 <= i <= j < |chosen| && chosen[i] != ids[i]
      ensures chosen[j] != ids[i]
    {
      ChoiceIsUp(agents, ids, hints, timeout, clock, chosen, i);
      ChoiceIsUp(agents, ids, hints, timeout, clock, chosen, j);
      if chosen[j] == ids[i] {
        UpFades(agents, ids[i], timeout, clock[i], clock[j]);
      }
    }
  }

  lemma ReplacedMeansFoundDown(agents: seq<Agent>, value: Param, ids: seq<string>, hints: Hints, timeout: real,
                               clock: seq<real>, chosen: seq<string>)
    requires ValidRegistry(agents) && |clock| == |ids| && Resolves(agents, ids, hints, timeout, clock, chosen)
    ensures Replaced(value, ids[..|chosen|], chosen) <==> FoundDown(agents, value, ids, timeout, clock, |chosen|)
  {
    if i :| ReplacedAt(value, ids[..|chosen|], chosen, i) {
      ChoiceIsUp(agents, ids, hints, timeout, clock, chosen, i);
      assert ids[i] == ids[..|chosen|][i];
    }
    if i :| 0 <= i < |chosen| && value == Text(ids[i]) && ids[i] != "" && !Up(agents, ids[i], timeout, clock[i]) {
      ChoiceIsUp(agents, ids, hints, timeout, clock, chosen, i);
      assert ReplacedAt(value, ids[..|chosen|], chosen, i);
    }
  }

  /** Availability only fades: with no new heartbeat, an agent that is up was up before. */
  lemma UpFades(agents: seq<Agent>, id: string, timeout: real, now: real, later: real)
    requires now <= later && Up(agents, id, timeout, later)
    ensures Up(agents, id, timeout, now)
  {
  }

  /** With one agent registered, it is the replacement or there is none. */
  lemma OnlyAgent(agent: Agent, hints: Hints, timeout: real, now: real)
    ensures Replacement([agent], hints, timeout, now) == if Available(agent, timeout, now) then Some(agent) else None
    ensures forall id :: id != agent.id ==> Lookup([agent], id).None?
  {
    assert Front([agent]) == [] && Last([agent]) == agent;
    assert AvailableOnes([agent], timeout, now) == if Available(agent, timeout, now) then [agent] else [];
    assert StableSort([agent], Ranking(hints)) == [agent];
  }

  /**
   * Every assigned agent is available, available agents are kept, and some agent is up only if a replacement exists.
   */
  lemma AssignedAreUp(agents: seq<Agent>, hints: Hints, timeout: real, now: real)
    requires ValidRegistry(agents)
    ensures forall id :: var chosen := Assigned(agents, id, hints, timeout, now);
              && (chosen.Some? ==> Up(agents, chosen.value, timeout, now))
              && (Up(agents, id, timeout, now) ==> chosen == Some(id))
              && (chosen.None? <==> Replacement(agents, hints, timeout, now).None?)
  {
    var _ := ReplacementIsBest(agents, hints, timeout, now);
    var r := Replacement(agents, hints, timeout, now);
    if r.Some? { LookupFinds(agents, r.value); }
    forall id | Up(agents, id, timeout, now)
      ensures r.Some?
    {
      assert Lookup(agents, id).value in AvailableOnes(agents, timeout, now);
    }
  }

  lemma DownGrows(agents: seq<Agent>, ids: seq<string>, id: string, timeout: real, now: real)
    ensures Down(agents, ids + [id], timeout, now) ==
            if id != "" && !Up(agents, id, timeout, now) then Down(agents, ids, timeout, now) + {id}
            else Down(agents, ids, timeout, now)
  {
  }

  lemma NothingToSubstitute(params: map<string, Param>, substitute: string)
    ensures Substituted(params, {}, substitute) == params
  {
  }

  lemma ExclusionHolds(agents: seq<Agent>, id: string, timeout: real, now: real)
    requires ValidRegistry(agents) && !Up(agents, id, timeout, now)
    ensures AvailableOnes(Without(agents, id), timeout, now) == AvailableOnes(agents, timeout, now)
  {
    forall a | a in agents && a.id == id
      ensures !Available(a, timeout, now)
    {
      LookupFinds(agents, a);
    }
    ExclusionIsMoot(agents, id, timeout, now);
  }

  /** One more rewrite extends the simultaneous substitution, as the replacement is not itself replaced. */
  lemma RewriteIsSubstitution(params: map<string, Param>, olds: set<string>, previous: string, substitute: string)
    requires substitute != previous
    ensures Rewritten(Substituted(params, olds, substitute), previous, substitute) ==
              Substituted(params, olds + {previous}, substitute)
  {
  }
}
