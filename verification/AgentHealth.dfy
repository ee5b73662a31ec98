/**
 * When an agent counts as available (orchestrator/agents.py): what its record says, and what that means in terms of
 * everything that ever happened to the agent.
 */
module AgentHealth {
  import opened Collections

  datatype Capability = Router | Execution | Validation | Analysis | Support

  datatype Status = Active | Inactive | Suspended | Offline

  datatype Agent = Agent(id: string, region: string, capabilities: seq<Capability>, stake: real, status: Status,
                         lastHeartbeat: Option<real>)

  /** A heartbeat at time zero counts as none. */
  predicate HasHeartbeat(a: Agent) {
    a.lastHeartbeat.Some? && a.lastHeartbeat.value != 0.0
  }

  predicate Available(a: Agent, timeout: real, now: real) {
    if a.status == Suspended || a.status == Offline then false
    else if !HasHeartbeat(a) then a.status == Active
    else now - a.lastHeartbeat.value < timeout
  }

  // ----- What changes a record -----

  function Registered(id: string, region: string, capabilities: seq<Capability>, stake: real): Agent {
    Agent(id, region, capabilities, stake, Active, None)
  }

  function Beating(a: Agent, capabilities: Option<seq<Capability>>, now: real): Agent {
    a.(lastHeartbeat := Some(now), status := if a.status == Suspended then Suspended else Active,
       capabilities := capabilities.GetOr(a.capabilities))
  }

  function Watched(a: Agent, timeout: real, now: real): Agent {
    if a.status != Suspended && HasHeartbeat(a) && now - a.lastHeartbeat.value > timeout then a.(status := Offline)
    else a
  }

  /** The fields that an operator changes; a region that is empty is none. */
  datatype Edit = Edit(region: Option<string>, capabilities: Option<seq<Capability>>, stake: Option<real>,
                       status: Option<Status>)

  function Edited(a: Agent, e: Edit): Agent {
    a.(region := if e.region.GetOr("") != "" then e.region.value else a.region,
       capabilities := e.capabilities.GetOr(a.capabilities), stake := e.stake.GetOr(a.stake),
       status := e.status.GetOr(a.status))
  }

  /** The watchdog only writes down what was so already: availability does not change, then or later. */
  lemma WatchdogKeepsAvailability(a: Agent, timeout: real, now: real, later: real)
    requires now <= later
    ensures Available(Watched(a, timeout, now), timeout, later) == Available(a, timeout, later)
  {
  }

  /** A heartbeat makes an agent available for the timeout from then on, unless it is suspended. */
  lemma HeartbeatRevives(a: Agent, capabilities: Option<seq<Capability>>, timeout: real, now: real, later: real)
    requires 0.0 < now <= later
    ensures Available(Beating(a, capabilities, now), timeout, later) <==> a.status != Suspended && later - now < timeout
  {
  }

  // ----- The life of an agent since its registration -----

  /** An operator sets the status, the agent sends a heartbeat, the watchdog looks at the agent. */
  datatype Life = StatusSet(status: Status) | Beat(at: real) | Checked(at: real)

  /** Time does not run backwards, and has started. */
  ghost predicate InOrder(life: seq<Life>, now: real) {
    if life == [] then 0.0 <= now
    else
      match Last(life)
      case StatusSet(_) => InOrder(Front(life), now)
      case Beat(at) => 0.0 < at <= now && InOrder(Front(life), at)
      case Checked(at) => at <= now && InOrder(Front(life), at)
  }

  /** What the operator last said of the agent; registering it says that it is active. */
  function LastWord(life: seq<Life>): Status {
    if life == [] then Active
    else if Last(life).StatusSet? then Last(life).status
    else LastWord(Front(life))
  }

  function LastBeat(life: seq<Life>): Option<real> {
    if life == [] then None
    else if Last(life).Beat? then Some(Last(life).at)
    else LastBeat(Front(life))
  }

  /** What the operator said since the last heartbeat, if anything. */
  function WordSinceBeat(life: seq<Life>): Option<Status> {
    if life == [] || Last(life).Beat? then None
    else if Last(life).StatusSet? then Some(Last(life).status)
    else WordSinceBeat(Front(life))
  }

  /**
   * The definition: the operator has not suspended the agent; if it never sent a heartbeat, the operator has it active;
   * if it has, its last heartbeat is within the timeout and the operator has not set it offline since.
   */
  predicate InService(life: seq<Life>, timeout: real, now: real) {
    && LastWord(life) != Suspended
    && match LastBeat(life)
       case None => LastWord(life) == Active
       case Some(at) => now - at < timeout && WordSinceBeat(life) != Some(Offline)
  }

  /** The record is that of an agent with this life. */
  ghost predicate Reflects(a: Agent, life: seq<Life>, timeout: real, now: real) {
    && InOrder(life, now)
    && a.lastHeartbeat == LastBeat(life) && (a.lastHeartbeat.Some? ==> 0.0 < a.lastHeartbeat.value <= now)
    && (a.status == Suspended <==> LastWord(life) == Suspended)
    && (a.lastHeartbeat.None? ==> a.status == LastWord(life))
    && (a.lastHeartbeat.Some? && WordSinceBeat(life) == Some(Offline) ==> a.status == Offline)
    && (a.lastHeartbeat.Some? && a.status == Offline ==>
          WordSinceBeat(life) == Some(Offline) || now - a.lastHeartbeat.value > timeout)
  }

  /** Whoever consults the record learns what the life of the agent says. */
  lemma RecordTellsTheLife(a: Agent, life: seq<Life>, timeout: real, now: real)
    requires Reflects(a, life, timeout, now)
    ensures Available(a, timeout, now) <==> InService(life, timeout, now)
  {
    WordsAgree(life);
  }

  /** A word since the last heartbeat is the last word. */
  lemma {:induction false} WordsAgree(life: seq<Life>)
    ensures WordSinceBeat(life).Some? ==> WordSinceBeat(life).value == LastWord(life)
  {
    if life != [] && !Last(life).Beat? {
      WordsAgree(Front(life));
    }
  }

  lemma ReflectsLater(a: Agent, life: seq<Life>, timeout: real, now: real, later: real)
    requires Reflects(a, life, timeout, now) && now <= later
    ensures Reflects(a, life, timeout, later)
  {
    OrderedLater(life, now, later);
  }

  lemma {:induction false} OrderedLater(life: seq<Life>, now: real, later: real)
    requires InOrder(life, now) && now <= later
    ensures InOrder(life, later)
  {
    if life != [] && Last(life).StatusSet? {
      OrderedLater(Front(life), now, later);
    }
  }

  lemma RegisteredReflects(id: string, region: string, capabilities: seq<Capability>, stake: real, timeout: real,
                           now: real)
    requires now >= 0.0
    ensures Reflects(Registered(id, region, capabilities, stake), [], timeout, now)
  {
  }

  lemma BeatReflects(a: Agent, capabilities: Option<seq<Capability>>, life: seq<Life>, timeout: real, now: real)
    requires Reflects(a, life, timeout, now) && now > 0.0
    ensures Reflects(Beating(a, capabilities, now), life + [Beat(now)], timeout, now)
  {
    assert Front(life + [Beat(now)]) == life;
  }

  lemma CheckReflects(a: Agent, life: seq<Life>, timeout: real, now: real)
    requires Reflects(a, life, timeout, now)
    ensures Reflects(Watched(a, timeout, now), life + [Checked(now)], timeout, now)
  {
    assert Front(life + [Checked(now)]) == life;
  }

  function LifeAfterEdit(life: seq<Life>, e: Edit): seq<Life> {
    if e.status.Some? then life + [StatusSet(e.status.value)] else life
  }

  lemma EditReflects(a: Agent, e: Edit, life: seq<Life>, timeout: real, now: real)
    requires Reflects(a, life, timeout, now)
    ensures Reflects(Edited(a, e), LifeAfterEdit(life, e), timeout, now)
  {
    if e.status.Some? {
      assert Front(life + [StatusSet(e.status.value)]) == life;
      WordsAgree(life);
    }
  }
}
