/**
 * Energy anomaly escalation (agent-gateway/telemetry.ts).  `log` holds every anomaly ever
 * handled and `alerts` every escalation; a report may delete the entry that remembers an
 * agent's last alert, and the spacing of alerts survives that.
 */
module AnomalyEscalation {
  import opened Collections
  import opened SlidingWindow

  datatype Settings = Settings(threshold: int, windowMs: int, cooldownMs: int) {
    predicate Clamped() {
      threshold >= 0 && windowMs >= 0 && cooldownMs >= 0
    }

    /** How many anomalies an alert takes; the one being handled is always counted. */
    function Needed(): nat {
      if threshold >= 1 then threshold else 1
    }

    /** An entry is forgotten only once its last anomaly is older than the window. */
    function Spacing(): int {
      Min(cooldownMs, windowMs + 1)
    }
  }

  /** A number from the environment, None when it is not finite, brought to an integer. */
  function PositiveInteger(value: Option<real>, fallback: int): int {
    if value.None? || value.value <= 0.0 then fallback else value.value.Floor
  }

  /** The settings for any numbers in the environment. */
  function Configured(threshold: Option<real>, windowMs: Option<real>, cooldownMs: int): (settings: Settings)
    ensures settings.Clamped()
  {
    Settings(PositiveInteger(threshold, 3), PositiveInteger(windowMs, 900000), Max(0, cooldownMs))
  }

  /** Settings that are allowed are taken over; without any, three anomalies in a quarter of an hour are needed. */
  lemma ConfiguredKeepsWhatIsAllowed(threshold: int, windowMs: int, cooldownMs: int)
    requires threshold >= 1 && windowMs >= 1
    ensures Configured(Some(threshold as real), Some(windowMs as real), cooldownMs) ==
            Settings(threshold, windowMs, if cooldownMs >= 0 then cooldownMs else 0)
    ensures Configured(None, None, cooldownMs).threshold == 3
    ensures Configured(None, None, cooldownMs).windowMs == 15 * 60 * 1000
  {
  }

  /**
   * What is called a positive integer is one exactly when the number is not a fraction between nought and one, which is
   * rounded down to nought; other numbers keep their whole part, and what is no positive number gives the fallback.
   */
  lemma PositiveUnlessFraction(value: Option<real>, fallback: int)
    requires fallback >= 1
    ensures PositiveInteger(value, fallback) >= 1 <==> !(value.Some? && 0.0 < value.value < 1.0)
    ensures value.Some? && value.value > 0.0 ==>
              var n := PositiveInteger(value, fallback); n as real <= value.value < n as real + 1.0
    ensures value.None? || value.value <= 0.0 ==> PositiveInteger(value, fallback) == fallback
  {
  }

  datatype Entry = Entry(timestamps: seq<Instant>, lastAlert: Option<int>)

  /** The stamps of one agent's events. */
  function Times(log: seq<Stamped<string>>, key: string): seq<Instant> {
    if log == [] then []
    else if Last(log).what == key then Times(Front(log), key) + [Tick(Last(log).at)]
    else Times(Front(log), key)
  }

  lemma TimesAfter(log: seq<Stamped<string>>, e: Stamped<string>, key: string)
    ensures Times(log + [e], key) == if e.what == key then Times(log, key) + [Tick(e.at)] else Times(log, key)
  {
    assert Front(log + [e]) == log;
  }

  /** The definition: anomalies of one agent within the window. */
  function RecentAnomalies(log: seq<Stamped<string>>, key: string, windowMs: int, now: int): nat {
    |Recent(Times(log, key), now - windowMs)|
  }

  ghost predicate Spaced(times: seq<Instant>, gap: int) {
    forall i :: 0 < i < |times| ==> times[i].at - times[i - 1].at >= gap
  }

  /** Any `n + 1` alerts of one agent stretch over at least `n` spacings. */
  lemma {:induction false} AlertsStretch(times: seq<Instant>, gap: int, i: nat, n: nat)
    requires Spaced(times, gap) && i + n < |times|
    ensures times[i + n].at - times[i].at >= n * gap
  {
    if n > 0 {
      AlertsStretch(times, gap, i, n - 1);
      assert times[i + n].at - times[i + n - 1].at >= gap;
      assert n * gap == (n - 1) * gap + gap;
    }
  }

  /** What an entry must remember of an agent's anomalies and alerts. */
  ghost predicate EntryFits(entry: Option<Entry>, anomalies: seq<Instant>, alerts: seq<Instant>, settings: Settings,
                            now: int)
  {
    var cutoff := now - settings.windowMs;
    && AgreeFrom(if entry.Some? then entry.value.timestamps else [], anomalies, cutoff)
    && (alerts != [] ==> Last(alerts) in anomalies)
    && (if entry.Some? && entry.value.lastAlert.Some?
        then alerts != [] && Last(alerts).at == entry.value.lastAlert.value > 0
        else alerts != [] ==> Last(alerts).at < cutoff)
    && Spaced(alerts, settings.Spacing())
  }

  function EntryOf(history: map<string, Entry>, key: string): Option<Entry> {
    if key in history then Some(history[key]) else None
  }

  ghost predicate KeyFits(history: map<string, Entry>, log: seq<Stamped<string>>, alerts: seq<Stamped<string>>,
                          key: string, settings: Settings, now: int) {
    EntryFits(EntryOf(history, key), Times(log, key), Times(alerts, key), settings, now)
  }

  ghost predicate Fits(history: map<string, Entry>, log: seq<Stamped<string>>, alerts: seq<Stamped<string>>,
                       settings: Settings, now: int) {
    forall key :: KeyFits(history, log, alerts, key, settings, now)
  }

  /** Deleting an entry whose window is empty loses only alerts that are older than the window. */
  lemma RefreshFits(entry: Entry, anomalies: seq<Instant>, alerts: seq<Instant>, settings: Settings, clock: int,
                    now: int)
    requires EntryFits(Some(entry), anomalies, alerts, settings, clock) && clock <= now
    ensures var kept := Recent(entry.timestamps, now - settings.windowMs);
            && EntryFits(Some(entry.(timestamps := kept)), anomalies, alerts, settings, now)
            && kept == Recent(anomalies, now - settings.windowMs)
            && (kept == [] ==> EntryFits(None, anomalies, alerts, settings, now))
  {
    var cutoff := now - settings.windowMs;
    PruneAgrees(entry.timestamps, anomalies, clock - settings.windowMs, cutoff, cutoff);
    PruneTwice(entry.timestamps, cutoff, cutoff);
    RecentMembers(anomalies, cutoff);
    assert alerts != [] && Last(alerts).at >= cutoff ==> Last(alerts) in Recent(anomalies, cutoff);
  }

  /** The code treats a remembered alert at time zero as none. */
  predicate CooledDown(entry: Entry, settings: Settings, now: int) {
    entry.lastAlert.None? || entry.lastAlert.value == 0 || now - entry.lastAlert.value >= settings.cooldownMs
  }

  function Fresh(entry: Option<Entry>): Entry {
    entry.GetOr(Entry([], None))
  }

  /** What handleEnergyAnomalies makes of an entry. */
  function AfterAnomaly(entry: Entry, settings: Settings, now: int): Entry {
    var timestamps := Recent(entry.timestamps, now - settings.windowMs) + [Tick(now)];
    Entry(timestamps, if Escalates(entry, settings, now) then Some(now) else entry.lastAlert)
  }

  predicate Escalates(entry: Entry, settings: Settings, now: int) {
    && |Recent(entry.timestamps, now - settings.windowMs)| + 1 >= settings.threshold
    && CooledDown(entry, settings, now)
  }

  /** A report drops an entry whose window is empty, and the last alert with it. */
  function Refreshed(entry: Option<Entry>, settings: Settings, now: int): Option<Entry> {
    if entry.None? then None
    else
      var kept := Recent(entry.value.timestamps, now - settings.windowMs);
      if kept == [] then None else Some(entry.value.(timestamps := kept))
  }

  /**
   * An escalation takes a full window and comes at least the spacing after the last alert; a full
   * window that does not escalate is within the cooldown of the last alert.
   */
  ghost predicate RightDecision(anomalies: seq<Instant>, past: seq<Instant>, settings: Settings, now: int,
                                escalated: bool)
  {
    var full := |Recent(anomalies, now - settings.windowMs)| >= settings.threshold;
    if escalated then full && (past == [] || now - Last(past).at >= settings.Spacing())
    else full ==> past != [] && now - Last(past).at < settings.cooldownMs
  }

  lemma DecisionIsRight(entry: Entry, anomalies: seq<Instant>, alerts: seq<Instant>, settings: Settings, now: int)
    requires settings.Clamped() && now > 0
    requires EntryFits(Some(entry), anomalies, alerts, settings, now)
    ensures RightDecision(anomalies + [Tick(now)], alerts, settings, now, Escalates(entry, settings, now))
  {
    RefreshFits(entry, anomalies, alerts, settings, now, now);
    WindowAfterAnomaly(entry, anomalies, settings, now);
  }

  lemma EntryAfterAnomaly(entry: Entry, anomalies: seq<Instant>, alerts: seq<Instant>, settings: Settings, now: int)
    requires settings.Clamped() && now > 0
    requires EntryFits(Some(entry), anomalies, alerts, settings, now)
    ensures EntryFits(Some(AfterAnomaly(entry, settings, now)), anomalies + [Tick(now)],
                      if Escalates(entry, settings, now) then alerts + [Tick(now)] else alerts, settings, now)
  {
    RefreshFits(entry, anomalies, alerts, settings, now, now);
    WindowAfterAnomaly(entry, anomalies, settings, now);
    AlertIsLogged(anomalies, alerts, now);
    if Escalates(entry, settings, now) {
      SpacedAppend(alerts, settings.Spacing(), Tick(now));
      assert Last(alerts + [Tick(now)]) == Tick(now);
    }
  }

  /** One more anomaly, and an alert when the refreshed window is full and the agent has cooled down. */
  lemma AnomalyFits(entry: Entry, anomalies: seq<Instant>, alerts: seq<Instant>, settings: Settings, now: int)
    requires settings.Clamped() && now > 0
    requires EntryFits(Some(entry), anomalies, alerts, settings, now)
    ensures EntryFits(Some(AfterAnomaly(entry, settings, now)), anomalies + [Tick(now)],
                      if Escalates(entry, settings, now) then alerts + [Tick(now)] else alerts, settings, now)
    ensures RightDecision(anomalies + [Tick(now)], alerts, settings, now, Escalates(entry, settings, now))
  {
    EntryAfterAnomaly(entry, anomalies, alerts, settings, now);
    DecisionIsRight(entry, anomalies, alerts, settings, now);
  }

  lemma SpacedAppend(times: seq<Instant>, gap: int, t: Instant)
    requires Spaced(times, gap) && (times != [] ==> t.at - Last(times).at >= gap)
    ensures Spaced(times + [t], gap)
  {
    var more := times + [t];
    forall i | 0 < i < |more|
      ensures more[i].at - more[i - 1].at >= gap
    {
      assert i < |times| ==> times[i].at - times[i - 1].at >= gap;
    }
  }

  /** The refreshed window plus the new anomaly agrees with the full history plus the new anomaly. */
  lemma WindowAfterAnomaly(entry: Entry, anomalies: seq<Instant>, settings: Settings, now: int)
    requires settings.Clamped()
    requires AgreeFrom(Recent(entry.timestamps, now - settings.windowMs), anomalies, now - settings.windowMs)
    requires Recent(entry.timestamps, now - settings.windowMs) == Recent(anomalies, now - settings.windowMs)
    ensures var cutoff := now - settings.windowMs;
            && AgreeFrom(Recent(entry.timestamps, cutoff) + [Tick(now)], anomalies + [Tick(now)], cutoff)
            && Recent(anomalies + [Tick(now)], cutoff) == Recent(entry.timestamps, cutoff) + [Tick(now)]
  {
    AppendAgrees(Recent(entry.timestamps, now - settings.windowMs), anomalies, now - settings.windowMs, Tick(now));
    RecentAppend(anomalies, now - settings.windowMs, Tick(now));
  }

  lemma AlertIsLogged(anomalies: seq<Instant>, alerts: seq<Instant>, now: int)
    requires alerts != [] ==> Last(alerts) in anomalies
    ensures Tick(now) in anomalies + [Tick(now)]
    ensures alerts != [] ==> Last(alerts) in anomalies + [Tick(now)]
  {
    var more := anomalies + [Tick(now)];
    assert more[|anomalies|] == Tick(now);
    if alerts != [] {
      var i :| 0 <= i < |anomalies| && anomalies[i] == Last(alerts);
      assert more[i] == Last(alerts);
    }
  }

  lemma FitsLater(history: map<string, Entry>, log: seq<Stamped<string>>, alerts: seq<Stamped<string>>,
                  settings: Settings, clock: int, now: int)
    requires Fits(history, log, alerts, settings, clock) && clock <= now
    ensures Fits(history, log, alerts, settings, now)
  {
    forall key
      ensures KeyFits(history, log, alerts, key, settings, now)
    {
      assert KeyFits(history, log, alerts, key, settings, clock);
    }
  }

  /** Events of one agent leave the others as they were. */
  lemma FitsAfter(history: map<string, Entry>, log: seq<Stamped<string>>, alerts: seq<Stamped<string>>,
                  settings: Settings, now: int, key: string, entry: Entry, alerts': seq<Stamped<string>>)
    requires Fits(history, log, alerts, settings, now)
    requires alerts' == alerts || alerts' == alerts + [Stamped(now, key)]
    requires EntryFits(Some(entry), Times(log, key) + [Tick(now)], Times(alerts', key), settings, now)
    ensures Fits(history[key := entry], log + [Stamped(now, key)], alerts', settings, now)
  {
    var history', log' := history[key := entry], log + [Stamped(now, key)];
    forall k
      ensures KeyFits(history', log', alerts', k, settings, now)
    {
      TimesAfter(log, Stamped(now, key), k);
      TimesAfter(alerts, Stamped(now, key), k);
      if k != key {
        assert KeyFits(history, log, alerts, k, settings, now);
        assert EntryOf(history', k) == EntryOf(history, k);
      }
    }
  }

  lemma HandlingFits(history: map<string, Entry>, log: seq<Stamped<string>>, alerts: seq<Stamped<string>>,
                     settings: Settings, now: int, key: string, entry: Entry)
    requires Fits(history, log, alerts, settings, now) && settings.Clamped() && now > 0
    requires entry == Fresh(EntryOf(history, key))
    ensures var escalated := Escalates(entry, settings, now);
            && Fits(history[key := AfterAnomaly(entry, settings, now)], log + [Stamped(now, key)],
                    if escalated then alerts + [Stamped(now, key)] else alerts, settings, now)
            && RightDecision(Times(log + [Stamped(now, key)], key), Times(alerts, key), settings, now, escalated)
  {
    assert KeyFits(history, log, alerts, key, settings, now);
    AnomalyFits(entry, Times(log, key), Times(alerts, key), settings, now);
    TimesAfter(log, Stamped(now, key), key);
    TimesAfter(alerts, Stamped(now, key), key);
    FitsAfter(history, log, alerts, settings, now, key, AfterAnomaly(entry, settings, now),
              if Escalates(entry, settings, now) then alerts + [Stamped(now, key)] else alerts);
  }

  class AnomalyMonitor {
    const settings: Settings
    var history: map<string, Entry>
    ghost var log: seq<Stamped<string>>
    ghost var alerts: seq<Stamped<string>>
    ghost var clock: int

    ghost predicate Valid()
      reads this
    {
      settings.Clamped() && Fits(history, log, alerts, settings, clock)
    }

    constructor (threshold: Option<real>, windowMs: Option<real>, cooldownMs: int)
      ensures Valid() && log == [] && alerts == [] && clock == 0
      ensures settings == Configured(threshold, windowMs, cooldownMs)
    {
      settings := Configured(threshold, windowMs, cooldownMs);
      history, log, alerts, clock := map[], [], [], 0;
    }

    /** `agent` is None when the address is missing or malformed. */
    method HandleAnomalies(agent: Option<string>, anomalies: seq<string>, now: int) returns (escalated: bool)
      requires Valid() && clock <= now && now > 0
      modifies this
      ensures Valid() && clock == now
      ensures anomalies == [] || agent.None? ==> !escalated && history == old(history) && log == old(log)
      ensures anomalies != [] && agent.Some? ==> log == old(log) + [Stamped(now, Lower(agent.value))]
      ensures escalated ==> alerts == old(alerts) + [Stamped(now, Lower(agent.value))]
      ensures !escalated ==> alerts == old(alerts)
      ensures anomalies != [] && agent.Some? ==>
                var key := Lower(agent.value);
                && RightDecision(Times(log, key), Times(old(alerts), key), settings, now, escalated)
                && escalated == Escalates(Fresh(EntryOf(old(history), key)), settings, now)
                && history == old(history)[key := AfterAnomaly(Fresh(EntryOf(old(history), key)), settings, now)]
    {
      FitsLater(history, log, alerts, settings, clock, now);
      clock := now;
      if |anomalies| == 0 || agent.None? {
        return false;
      }
      var key := Lower(agent.value);
      var entry := if key in history then history[key] else Entry([], None);
      ghost var was := entry;
      HandlingFits(history, log, alerts, settings, now, key, entry);
      entry := entry.(timestamps := Recent(entry.timestamps, now - settings.windowMs));
      entry := entry.(timestamps := entry.timestamps + [Tick(now)]);
      escalated := |entry.timestamps| >= settings.threshold && CooledDown(entry, settings, now);
      if escalated {
        entry := entry.(lastAlert := Some(now));
      }
      assert entry == AfterAnomaly(was, settings, now) && escalated == Escalates(was, settings, now);
      ghost var alerts' := if escalated then alerts + [Stamped(now, key)] else alerts;
      history := history[key := entry];
      log := log + [Stamped(now, key)];
      alerts := alerts';
    }

    /**
     * The counts that the report shows, of one agent when a well-formed address is given and else of all; entries whose
     * window is empty are dropped on the way, whoever is asked for.
     */
    method Report(agent: Option<string>, now: int) returns (counts: map<string, nat>)
      requires Valid() && clock <= now
      modifies this
      ensures Valid() && clock == now && log == old(log) && alerts == old(alerts)
      ensures forall key :: key in counts <==> key in history && (agent.None? || key == Lower(agent.value))
      ensures forall key :: key in counts ==> counts[key] == RecentAnomalies(log, key, settings.windowMs, now) > 0
      ensures forall key :: key in history <==> RecentAnomalies(log, key, settings.windowMs, now) > 0
      ensures forall key :: EntryOf(history, key) == Refreshed(EntryOf(old(history), key), settings, now)
    {
      FitsLater(history, log, alerts, settings, clock, now);
      clock := now;
      counts := map[];
      var keys := history.Keys;
      while keys != {}
        invariant Valid() && clock == now && log == old(log) && alerts == old(alerts)
        invariant keys <= history.Keys
        invariant forall key :: EntryOf(history, key) ==
                    if key in keys then EntryOf(old(history), key)
                    else Refreshed(EntryOf(old(history), key), settings, now)
        invariant forall key :: key in counts <==> key in history && key !in keys && Asked(agent, key)
        invariant forall key :: key in history && key !in keys ==> RecentAnomalies(log, key, settings.windowMs, now) > 0
        invariant forall key :: key in counts ==> counts[key] == RecentAnomalies(log, key, settings.windowMs, now)
        decreases keys
      {
        var key: string :| key in keys;
        keys := keys - {key};
        var count := RefreshEntry(key, now);
        if count > 0 && Asked(agent, key) {
          counts := counts[key := count];
        }
      }
      NobodyForgotten(history, log, alerts, settings, now);
    }

    /** Prunes one entry and drops it when its window is empty. */
    method RefreshEntry(key: string, now: int) returns (count: nat)
      requires Valid() && clock == now && key in history
      modifies `history
      ensures Valid() && count == RecentAnomalies(log, key, settings.windowMs, now)
      ensures history.Keys == if count > 0 then old(history).Keys else old(history).Keys - {key}
      ensures EntryOf(history, key) == Refreshed(EntryOf(old(history), key), settings, now)
      ensures count > 0 ==>
                var was := old(history)[key];
                history[key] == Entry(Recent(was.timestamps, now - settings.windowMs), was.lastAlert)
      ensures forall k :: k != key ==> EntryOf(history, k) == EntryOf(old(history), k)
    {
      var entry := history[key];
      assert KeyFits(history, log, alerts, key, settings, now);
      RefreshFits(entry, Times(log, key), Times(alerts, key), settings, now, now);
      entry := entry.(timestamps := Recent(entry.timestamps, now - settings.windowMs));
      if |entry.timestamps| == 0 {
        Forget(history, log, alerts, settings, now, key);
        history := history - {key};
      } else {
        Refresh(history, log, alerts, settings, now, key, entry);
        history := history[key := entry];
      }
      return |entry.timestamps|;
    }
  }

  /** Agents without an entry have no recent anomalies. */
  lemma NobodyForgotten(history: map<string, Entry>, log: seq<Stamped<string>>, alerts: seq<Stamped<string>>,
                        settings: Settings, now: int)
    requires Fits(history, log, alerts, settings, now)
    ensures forall key :: key !in history ==> RecentAnomalies(log, key, settings.windowMs, now) == 0
  {
    forall key | key !in history
      ensures RecentAnomalies(log, key, settings.windowMs, now) == 0
    {
      assert KeyFits(history, log, alerts, key, settings, now);
    }
  }

  predicate Asked(agent: Option<string>, key: string) {
    agent.Some? ==> key == Lower(agent.value)
  }

  // ----- The cooldown itself -----

  /** What can happen to one agent's entry: an anomaly is handled, or a report refreshes the entry. */
  datatype Happening = Anomaly(at: int) | Viewed(at: int)

  function EntryStep(settings: Settings, entry: Option<Entry>, x: Happening): Option<Entry> {
    match x
    case Anomaly(now) => Some(AfterAnomaly(Fresh(entry), settings, now))
    case Viewed(now) => Refreshed(entry, settings, now)
  }

  predicate Alerting(settings: Settings, entry: Option<Entry>, x: Happening) {
    x.Anomaly? && Escalates(Fresh(entry), settings, x.at)
  }

  function EntryAfter(settings: Settings, run: seq<Happening>): Option<Entry> {
    if run == [] then None else EntryStep(settings, EntryAfter(settings, Front(run)), Last(run))
  }

  function Logged(times: seq<Instant>, x: Happening, counts: bool): seq<Instant> {
    if counts then times + [Tick(x.at)] else times
  }

  function AnomaliesIn(run: seq<Happening>): seq<Instant> {
    if run == [] then [] else Logged(AnomaliesIn(Front(run)), Last(run), Last(run).Anomaly?)
  }

  function AlertsIn(settings: Settings, run: seq<Happening>): seq<Instant> {
    if run == [] then []
    else Logged(AlertsIn(settings, Front(run)), Last(run),
                Alerting(settings, EntryAfter(settings, Front(run)), Last(run)))
  }

  function ClockAfter(run: seq<Happening>): int {
    if run == [] then 0 else Last(run).at
  }

  /** Time does not run backwards, and the clock has started. */
  predicate InOrder(run: seq<Happening>) {
    run == [] || (InOrder(Front(run)) && Last(run).at > 0 && ClockAfter(Front(run)) <= Last(run).at)
  }

  lemma EntryFitsLater(entry: Option<Entry>, anomalies: seq<Instant>, alerts: seq<Instant>, settings: Settings,
                       clock: int, now: int)
    requires EntryFits(entry, anomalies, alerts, settings, clock) && clock <= now
    ensures EntryFits(entry, anomalies, alerts, settings, now)
  {
  }

  lemma StepFits(settings: Settings, entry: Option<Entry>, anomalies: seq<Instant>, alerts: seq<Instant>, clock: int,
                 x: Happening)
    requires settings.Clamped() && x.at > 0 && clock <= x.at
    requires EntryFits(entry, anomalies, alerts, settings, clock)
    ensures EntryFits(EntryStep(settings, entry, x), Logged(anomalies, x, x.Anomaly?),
                      Logged(alerts, x, Alerting(settings, entry, x)), settings, x.at)
  {
    EntryFitsLater(entry, anomalies, alerts, settings, clock, x.at);
    if x.Anomaly? {
      assert EntryFits(Some(Fresh(entry)), anomalies, alerts, settings, x.at);
      AnomalyFits(Fresh(entry), anomalies, alerts, settings, x.at);
    } else if entry.Some? {
      RefreshFits(entry.value, anomalies, alerts, settings, x.at, x.at);
    }
  }

  lemma {:induction false} RunFits(settings: Settings, run: seq<Happening>)
    requires settings.Clamped() && InOrder(run)
    ensures EntryFits(EntryAfter(settings, run), AnomaliesIn(run), AlertsIn(settings, run), settings, ClockAfter(run))
  {
    if run != [] {
      var front := Front(run);
      RunFits(settings, front);
      StepFits(settings, EntryAfter(settings, front), AnomaliesIn(front), AlertsIn(settings, front), ClockAfter(front),
               Last(run));
    }
  }

  lemma OneMore(settings: Settings, run: seq<Happening>, x: Happening)
    requires InOrder(run) && x.at > 0 && ClockAfter(run) <= x.at
    ensures var more := run + [x];
            && InOrder(more) && ClockAfter(more) == x.at
            && EntryAfter(settings, more) == EntryStep(settings, EntryAfter(settings, run), x)
            && AlertsIn(settings, more) ==
                 Logged(AlertsIn(settings, run), x, Alerting(settings, EntryAfter(settings, run), x))
  {
    assert Front(run + [x]) == run && Last(run + [x]) == x;
  }

  ghost predicate AllAt(times: seq<Instant>, at: int) {
    forall i :: 0 <= i < |times| ==> times[i] == Tick(at)
  }

  lemma {:induction false} RecentOfOneMoment(times: seq<Instant>, at: int, cutoff: int)
    requires AllAt(times, at)
    ensures Recent(times, cutoff) == if at >= cutoff then times else []
  {
    if times != [] {
      RecentOfOneMoment(Front(times), at, cutoff);
      FrontAndLast(times);
    }
  }

  /** What `n` anomalies at one moment leave behind, up to the threshold. */
  ghost predicate InBurst(settings: Settings, entry: Entry, n: nat, at: int) {
    && |entry.timestamps| == n && AllAt(entry.timestamps, at)
    && entry.lastAlert == if n == settings.Needed() then Some(at) else None
  }

  lemma OneMoreInBurst(settings: Settings, entry: Entry, n: nat, at: int)
    requires settings.Clamped() && n < settings.Needed() && InBurst(settings, entry, n, at)
    ensures Escalates(entry, settings, at) <==> n + 1 == settings.Needed()
    ensures InBurst(settings, AfterAnomaly(entry, settings, at), n + 1, at)
  {
    RecentOfOneMoment(entry.timestamps, at, at - settings.windowMs);
  }

  /**
   * As many anomalies as the threshold asks for, at one moment and with nothing remembered, raise exactly one alert.
   */
  lemma {:induction false} BurstAlerts(settings: Settings, run: seq<Happening>, n: nat, at: int)
    returns (more: seq<Happening>)
    requires settings.Clamped() && n <= settings.Needed()
    requires InOrder(run) && at > 0 && ClockAfter(run) <= at && EntryAfter(settings, run).None?
    ensures InOrder(more) && ClockAfter(more) <= at
    ensures InBurst(settings, Fresh(EntryAfter(settings, more)), n, at)
    ensures AlertsIn(settings, more) == Logged(AlertsIn(settings, run), Viewed(at), n == settings.Needed())
    decreases n
  {
    more := run;
    if n > 0 {
      var fewer := BurstAlerts(settings, run, n - 1, at);
      OneMore(settings, fewer, Anomaly(at));
      OneMoreInBurst(settings, Fresh(EntryAfter(settings, fewer)), n - 1, at);
      more := fewer + [Anomaly(at)];
    }
  }

  /** The alert, a report when the window has just emptied, and the alert again: one window and a millisecond apart. */
  lemma ReportForgetsTheAlert(settings: Settings) returns (run: seq<Happening>)
    requires settings.Clamped()
    ensures InOrder(run) && |AlertsIn(settings, run)| == 2
    ensures AlertsIn(settings, run)[1].at - AlertsIn(settings, run)[0].at == settings.windowMs + 1
  {
    var n, later := settings.Needed(), settings.windowMs + 2;
    var first := BurstAlerts(settings, [], n, 1);
    RecentOfOneMoment(Fresh(EntryAfter(settings, first)).timestamps, 1, later - settings.windowMs);
    OneMore(settings, first, Viewed(later));
    run := BurstAlerts(settings, first + [Viewed(later)], n, later);
  }

  /**
   * Exactly when the cooldown is kept in every run: when it is no longer than the window and a millisecond.  A longer
   * one is undercut, because a report between two alerts can drop the entry that remembers the first.
   */
  lemma CooldownHoldsUpToTheWindow(settings: Settings)
    requires settings.Clamped()
    ensures settings.cooldownMs <= settings.windowMs + 1 <==>
            forall run :: InOrder(run) ==> Spaced(AlertsIn(settings, run), settings.cooldownMs)
  {
    if settings.cooldownMs <= settings.windowMs + 1 {
      forall run | InOrder(run)
        ensures Spaced(AlertsIn(settings, run), settings.cooldownMs)
      {
        RunFits(settings, run);
      }
    } else {
      var run := ReportForgetsTheAlert(settings);
      assert InOrder(run) && !Spaced(AlertsIn(settings, run), settings.cooldownMs);
    }
  }

  /** In every run: later escalations of an agent keep min(cooldown, window + 1) apart, for each one in between. */
  lemma EscalationsAreSpaced(monitor: AnomalyMonitor, key: string, i: nat, n: nat)
    requires monitor.Valid() && i + n < |Times(monitor.alerts, key)|
    ensures var times := Times(monitor.alerts, key);
            times[i + n].at - times[i].at >= n * Min(monitor.settings.cooldownMs, monitor.settings.windowMs + 1)
  {
    assert KeyFits(monitor.history, monitor.log, monitor.alerts, key, monitor.settings, monitor.clock);
    AlertsStretch(Times(monitor.alerts, key), monitor.settings.Spacing(), i, n);
  }

  lemma Refresh(history: map<string, Entry>, log: seq<Stamped<string>>, alerts: seq<Stamped<string>>,
                settings: Settings, now: int, key: string, entry: Entry)
    requires Fits(history, log, alerts, settings, now)
    requires EntryFits(Some(entry), Times(log, key), Times(alerts, key), settings, now)
    ensures Fits(history[key := entry], log, alerts, settings, now)
  {
    var history' := history[key := entry];
    forall k
      ensures KeyFits(history', log, alerts, k, settings, now)
    {
      assert KeyFits(history, log, alerts, k, settings, now);
    }
  }

  lemma Forget(history: map<string, Entry>, log: seq<Stamped<string>>, alerts: seq<Stamped<string>>,
               settings: Settings, now: int, key: string)
    requires Fits(history, log, alerts, settings, now)
    requires EntryFits(None, Times(log, key), Times(alerts, key), settings, now)
    ensures Fits(history - {key}, log, alerts, settings, now)
  {
    var history' := history - {key};
    forall k
      ensures KeyFits(history', log, alerts, k, settings, now)
    {
      assert KeyFits(history, log, alerts, k, settings, now);
    }
  }
}
