/**
 * The quarantine manager (agent-gateway/security.ts).  The flag of an agent is set, pruned and
 * cleared at different moments and is saved only sometimes; `log` records what was reported to
 * the manager, and every answer is a function of that log and the clock alone.
 */
module Quarantine {
  import opened Collections
  import opened SlidingWindow

  datatype Health = Health(quarantined: bool, reasons: seq<string>, failureHistory: seq<Instant>)

  const UNKNOWN := Health(false, [], [])

  datatype Report =
    | Failure(address: string, at: int)
    | Success(address: string)
    | Release(address: string)

  /** The failures of one agent since it last succeeded or was released. */
  function FailuresSinceReset(log: seq<Report>, key: string): seq<Instant> {
    if log == [] then
      []
    else
      var before := FailuresSinceReset(Front(log), key);
      var last := Last(log);
      if Lower(last.address) != key then before
      else if last.Failure? then before + [Tick(last.at)]
      else []
  }

  /** How many of them are at most `windowMs` old. */
  function RecentFailures(log: seq<Report>, key: string, windowMs: int, now: int): nat {
    |Recent(FailuresSinceReset(log, key), now - windowMs)|
  }

  /** What the manager is for: enough recent failures.  A threshold below one is met by anybody. */
  ghost predicate ShouldBeQuarantined(log: seq<Report>, key: string, threshold: int, windowMs: int, now: int) {
    RecentFailures(log, key, windowMs, now) >= threshold
  }

  /** The answer the code gives: the definition above, except that a threshold below one still takes one failure. */
  ghost predicate Answer(log: seq<Report>, key: string, threshold: int, windowMs: int, now: int) {
    if threshold >= 1 then ShouldBeQuarantined(log, key, threshold, windowMs, now)
    else FailuresSinceReset(log, key) != []
  }

  /** Over all inputs the answer is the definition exactly when the threshold is positive or a failure is on record. */
  lemma AnswerIsTheDefinition(log: seq<Report>, key: string, threshold: int, windowMs: int, now: int)
    ensures (Answer(log, key, threshold, windowMs, now) <==> ShouldBeQuarantined(log, key, threshold, windowMs, now))
            <==> (threshold >= 1 || FailuresSinceReset(log, key) != [])
  {
    assert threshold < 1 ==> ShouldBeQuarantined(log, key, threshold, windowMs, now);
  }

  /**
   * A witness, as AGENT_ERROR_THRESHOLD=0 sets it up: an agent nobody ever reported should be quarantined and is not.
   */
  lemma ZeroThresholdSparesTheUnreported(key: string, windowMs: int, now: int)
    ensures ShouldBeQuarantined([], key, 0, windowMs, now) && !Answer([], key, 0, windowMs, now)
  {
  }

  /** One entry against the log: the stored history agrees on every window still to come, the flag never misses. */
  ghost predicate EntryFits(h: Health, failures: seq<Instant>, threshold: int, cutoff: int) {
    && AgreeFrom(h.failureHistory, failures, cutoff)
    && (threshold >= 1 && !h.quarantined ==> |Recent(failures, cutoff)| < threshold)
    && (threshold < 1 ==> (h.quarantined <==> failures != []))
  }

  function EntryOf(state: map<string, Health>, key: string): Health {
    if key in state then state[key] else UNKNOWN
  }

  ghost predicate KeyFits(state: map<string, Health>, log: seq<Report>, key: string, threshold: int, cutoff: int) {
    EntryFits(EntryOf(state, key), FailuresSinceReset(log, key), threshold, cutoff)
  }

  ghost predicate Fits(state: map<string, Health>, log: seq<Report>, threshold: int, cutoff: int) {
    forall key :: KeyFits(state, log, key, threshold, cutoff)
  }

  lemma FitsLater(state: map<string, Health>, log: seq<Report>, threshold: int, cutoff: int, later: int)
    requires Fits(state, log, threshold, cutoff) && cutoff <= later
    ensures Fits(state, log, threshold, later)
  {
    forall key
      ensures KeyFits(state, log, key, threshold, later)
    {
      assert KeyFits(state, log, key, threshold, cutoff);
      WindowShrinks(FailuresSinceReset(log, key), cutoff, later);
    }
  }

  /** A report about one agent leaves what is known of the others as it was. */
  lemma FitsAfter(state: map<string, Health>, log: seq<Report>, threshold: int, cutoff: int, h: Health, report: Report)
    requires Fits(state, log, threshold, cutoff)
    requires EntryFits(h, FailuresSinceReset(log + [report], Lower(report.address)), threshold, cutoff)
    ensures Fits(state[Lower(report.address) := h], log + [report], threshold, cutoff)
    ensures h == EntryOf(state, Lower(report.address)) ==> Fits(state, log + [report], threshold, cutoff)
  {
    var log' := log + [report];
    assert Front(log') == log;
    var state' := state[Lower(report.address) := h];
    forall k
      ensures KeyFits(state', log', k, threshold, cutoff)
    {
      assert KeyFits(state, log, k, threshold, cutoff);
    }
    if h == EntryOf(state, Lower(report.address)) {
      forall k
        ensures KeyFits(state, log', k, threshold, cutoff)
      {
        assert KeyFits(state', log', k, threshold, cutoff);
      }
    }
  }

  lemma Replace(state: map<string, Health>, log: seq<Report>, threshold: int, cutoff: int, key: string, h: Health)
    requires Fits(state, log, threshold, cutoff) && EntryFits(h, FailuresSinceReset(log, key), threshold, cutoff)
    ensures Fits(state[key := h], log, threshold, cutoff)
  {
    var state' := state[key := h];
    forall k
      ensures KeyFits(state', log, k, threshold, cutoff)
    {
      assert KeyFits(state, log, k, threshold, cutoff);
    }
  }

  /** The entry that recordFailure stores. */
  function AfterFailure(was: Health, reason: string, threshold: int, windowMs: int, now: int): Health {
    var history := Recent(was.failureHistory, now - windowMs) + [Tick(now)];
    Health(was.quarantined || |history| >= threshold, was.reasons + [reason], history)
  }

  lemma FailureFits(was: Health, failures: seq<Instant>, reason: string, threshold: int, windowMs: int, clock: int,
                    now: int)
    requires EntryFits(was, failures, threshold, clock - windowMs) && clock <= now
    ensures var entry := AfterFailure(was, reason, threshold, windowMs, now);
            && EntryFits(entry, failures + [Tick(now)], threshold, now - windowMs)
            && Recent(entry.failureHistory, now - windowMs) == Recent(failures + [Tick(now)], now - windowMs)
            && (windowMs >= 0 ==> Recent(entry.failureHistory, now - windowMs) == entry.failureHistory)
  {
    HistoryAfterFailure(was.failureHistory, failures, windowMs, clock, now);
    RecentMembers(AfterFailure(was, reason, threshold, windowMs, now).failureHistory, now - windowMs);
  }

  /** The pruned history with one more failure stands for the full history with one more failure. */
  lemma HistoryAfterFailure(history: seq<Instant>, failures: seq<Instant>, windowMs: int, clock: int, now: int)
    requires AgreeFrom(history, failures, clock - windowMs) && clock <= now
    ensures var cutoff, after := now - windowMs, Recent(history, now - windowMs) + [Tick(now)];
            && AgreeFrom(after, failures + [Tick(now)], cutoff)
            && Recent(after, cutoff) == Recent(failures + [Tick(now)], cutoff)
            && (windowMs >= 0 ==> Recent(after, cutoff) == after)
  {
    var cutoff := now - windowMs;
    var kept := Recent(history, cutoff);
    PruneAgrees(history, failures, clock - windowMs, cutoff, cutoff);
    AppendAgrees(kept, failures, cutoff, Tick(now));
    PruneTwice(history, cutoff, cutoff);
    RecentAppend(kept, cutoff, Tick(now));
  }

  /** What recordFailure leaves in the state and answers with. */
  lemma RecordingFits(state: map<string, Health>, log: seq<Report>, address: string, was: Health, reason: string,
                      threshold: int, windowMs: int, clock: int, now: int)
    requires Fits(state, log, threshold, clock - windowMs) && clock <= now && was == EntryOf(state, Lower(address))
    ensures var entry, log' := AfterFailure(was, reason, threshold, windowMs, now), log + [Failure(address, now)];
            && Fits(state[Lower(address) := entry], log', threshold, now - windowMs)
            && (threshold >= 1 && ShouldBeQuarantined(log', Lower(address), threshold, windowMs, now) ==>
                  entry.quarantined)
            && (windowMs >= 0 ==> |entry.failureHistory| == RecentFailures(log', Lower(address), windowMs, now))
  {
    var key, log' := Lower(address), log + [Failure(address, now)];
    var failures := FailuresSinceReset(log, key);
    assert Front(log') == log;
    assert FailuresSinceReset(log', key) == failures + [Tick(now)];
    assert KeyFits(state, log, key, threshold, clock - windowMs);
    FailureFits(was, failures, reason, threshold, windowMs, clock, now);
    FitsLater(state, log, threshold, clock - windowMs, now - windowMs);
    FitsAfter(state, log, threshold, now - windowMs, AfterFailure(was, reason, threshold, windowMs, now),
              Failure(address, now));
  }

  /** The entry that isQuarantined leaves behind when the flag was set. */
  function AfterQuery(was: Health, threshold: int, windowMs: int, now: int): Health {
    var history := Recent(was.failureHistory, now - windowMs);
    was.(failureHistory := history, quarantined := |history| >= threshold)
  }

  lemma QueryFits(was: Health, failures: seq<Instant>, threshold: int, windowMs: int, clock: int, now: int)
    requires EntryFits(was, failures, threshold, clock - windowMs) && clock <= now && was.quarantined
    ensures EntryFits(AfterQuery(was, threshold, windowMs, now), failures, threshold, now - windowMs)
    ensures AfterQuery(was, threshold, windowMs, now).failureHistory == Recent(failures, now - windowMs)
  {
    var cutoff := now - windowMs;
    PruneAgrees(was.failureHistory, failures, clock - windowMs, cutoff, cutoff);
    PruneTwice(was.failureHistory, cutoff, cutoff);
  }

  class QuarantineManager {
    const threshold: int
    const windowMs: int
    var state: map<string, Health>
    var disk: map<string, Health>  // the saved file, keyed as it is when it is read back
    ghost var log: seq<Report>
    ghost var clock: int

    ghost predicate Valid()
      reads this
    {
      && Fits(state, log, threshold, clock - windowMs)
      && Fits(disk, log, threshold, clock - windowMs)
      && disk.Keys == state.Keys
    }

    constructor (threshold: int, windowMs: int)
      ensures Valid() && log == [] && clock == 0
      ensures this.threshold == threshold && this.windowMs == windowMs
    {
      this.threshold := threshold;
      this.windowMs := windowMs;
      state, disk, log, clock := map[], map[], [], 0;
    }

    method RecordFailure(address: string, reason: string, now: int) returns (entry: Health)
      requires Valid() && clock <= now
      modifies this
      ensures Valid() && clock == now && log == old(log) + [Failure(address, now)]
      ensures threshold >= 1 && ShouldBeQuarantined(log, Lower(address), threshold, windowMs, now) ==> entry.quarantined
      ensures windowMs >= 0 ==> |entry.failureHistory| == RecentFailures(log, Lower(address), windowMs, now)
      ensures entry.quarantined <==>
                (Lower(address) in old(state) && old(state)[Lower(address)].quarantined)
                || |entry.failureHistory| >= threshold
      ensures entry.reasons ==
                (if Lower(address) in old(state) then old(state)[Lower(address)].reasons else []) + [reason]
      ensures state == old(state)[Lower(address) := entry] && disk == state
    {
      var key := Lower(address);
      var was := if key in state then state[key] else Health(false, [], []);
      var history := Recent(was.failureHistory, now - windowMs);
      history := history + [Tick(now)];
      entry := was.(failureHistory := history, reasons := was.reasons + [reason]);
      if |history| >= threshold {
        entry := entry.(quarantined := true);
      }
      RecordingFits(state, log, address, was, reason, threshold, windowMs, clock, now);
      log, clock := log + [Failure(address, now)], now;
      state := state[key := entry];
      disk := state;
    }

    method RecordSuccess(address: string) returns (entry: Health)
      requires Valid()
      modifies this
      ensures Valid() && clock == old(clock) && log == old(log) + [Success(address)]
      ensures entry == UNKNOWN && state == old(state)[Lower(address) := entry] && disk == state
    {
      var key := Lower(address);
      entry := Health(false, [], []);
      assert FailuresSinceReset(log + [Success(address)], key) == [] by {
        assert Front(log + [Success(address)]) == log;
      }
      FitsAfter(state, log, threshold, clock - windowMs, entry, Success(address));
      log := log + [Success(address)];
      state := state[key := entry];
      disk := state;
    }

    method ReleaseAgent(address: string)
      requires Valid()
      modifies this
      ensures Valid() && clock == old(clock) && log == old(log) + [Release(address)]
      ensures Lower(address) !in old(state) ==> state == old(state) && disk == old(disk)
      ensures Lower(address) in old(state) ==> state == old(state)[Lower(address) := UNKNOWN] && disk == state
    {
      var key := Lower(address);
      assert FailuresSinceReset(log + [Release(address)], key) == [] by {
        assert Front(log + [Release(address)]) == log;
      }
      FitsAfter(state, log, threshold, clock - windowMs, UNKNOWN, Release(address));
      FitsAfter(disk, log, threshold, clock - windowMs, UNKNOWN, Release(address));
      log := log + [Release(address)];
      if key !in state {
        return;
      }
      state := state[key := Health(false, [], [])];
      disk := state;
    }

    method IsQuarantined(address: string, now: int) returns (quarantined: bool)
      requires Valid() && clock <= now
      modifies this
      ensures Valid() && clock == now && log == old(log)
      ensures quarantined <==> Answer(log, Lower(address), threshold, windowMs, now)
      ensures var key := Lower(address);
              if key !in old(state) || !old(state)[key].quarantined then
                state == old(state) && disk == old(disk)
              else
                var was := old(state)[key];
                var kept := Recent(was.failureHistory, now - windowMs);
                && state == old(state)[key := Health(quarantined, was.reasons, kept)]
                && disk == if quarantined then old(disk) else state
    {
      var key := Lower(address);
      ghost var failures := FailuresSinceReset(log, key);
      ghost var before := clock;
      assert KeyFits(state, log, key, threshold, clock - windowMs);
      FitsLater(state, log, threshold, clock - windowMs, now - windowMs);
      FitsLater(disk, log, threshold, clock - windowMs, now - windowMs);
      clock := now;
      if key !in state || !state[key].quarantined {
        assert KeyFits(state, log, key, threshold, now - windowMs);
        return false;
      }
      QueryFits(state[key], failures, threshold, windowMs, before, now);
      var entry := state[key].(failureHistory := Recent(state[key].failureHistory, now - windowMs));
      if |entry.failureHistory| < threshold {
        entry := entry.(quarantined := false);
        Replace(state, log, threshold, now - windowMs, key, entry);
        state := state[key := entry];
        disk := state;
        return false;
      }
      Replace(state, log, threshold, now - windowMs, key, entry);
      state := state[key := entry];
      return true;
    }

    /** The process restarts and reads the saved file back; prunings that were not saved are undone. */
    method Restart()
      requires Valid()
      modifies this
      ensures Valid() && clock == old(clock) && log == old(log) && state == old(disk)
    {
      state := disk;
    }
  }
}
