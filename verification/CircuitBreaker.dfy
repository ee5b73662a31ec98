/**
 * The validation circuit breaker (agent-gateway/validator.ts).  `log` holds every outcome ever
 * recorded and `pauses` every pause ever started; the fields hold a pruned window and one
 * deadline.  A handler reads the clock several times, and each reading is a parameter, also where two readings are
 * so close that no other handler can run between them.
 */
module CircuitBreaker {
  import opened Collections
  import opened SlidingWindow

  /** A recorded outcome; `what` says whether it was a success. */
  type Outcome = Stamped<bool>

  datatype Settings = Settings(windowMs: int, rateThreshold: real, minSamples: real, pauseMs: int) {
    /** The bounds that the environment values are clamped to. */
    predicate Clamped() {
      windowMs >= 60000 && 0.01 <= rateThreshold <= 1.0 && minSamples >= 3.0 && pauseMs >= 60000
    }

    function RecoveryThreshold(): real {
      if rateThreshold / 2.0 > 0.05 then rateThreshold / 2.0 else 0.05
    }
  }

  /** The settings for any numbers in the environment: each is brought to its nearest bound. */
  function Configured(windowMs: int, rateThreshold: real, minSamples: real, pauseMs: int): (settings: Settings)
    ensures settings.Clamped()
  {
    Settings(Max(60000, windowMs), AtLeast(0.01, if rateThreshold < 1.0 then rateThreshold else 1.0),
             AtLeast(3.0, minSamples), Max(60000, pauseMs))
  }

  function AtLeast(bound: real, x: real): real {
    if x > bound then x else bound
  }

  /** Exactly the settings within the bounds are taken over as they are. */
  lemma ConfiguredKeepsWhatIsAllowed(s: Settings)
    ensures Configured(s.windowMs, s.rateThreshold, s.minSamples, s.pauseMs) == s <==>
              s.windowMs >= 60000 && 0.01 <= s.rateThreshold <= 1.0 && s.minSamples >= 3.0 && s.pauseMs >= 60000
    ensures s.Clamped() <==> Configured(s.windowMs, s.rateThreshold, s.minSamples, s.pauseMs) == s
  {
  }

  datatype Stats = Stats(failureRate: real, sampleSize: nat)

  function Failures(outcomes: seq<Outcome>): nat {
    if outcomes == [] then 0
    else Failures(Front(outcomes)) + if Last(outcomes).what then 0 else 1
  }

  function StatsOf(outcomes: seq<Outcome>): Stats {
    if outcomes == [] then Stats(0.0, 0)
    else Stats(Failures(outcomes) as real / |outcomes| as real, |outcomes|)
  }

  /** The definition: statistics of the full history restricted to the last window. */
  function WindowStats(log: seq<Outcome>, windowMs: int, now: int): Stats {
    StatsOf(Recent(log, now - windowMs))
  }

  /** The statistics of a window are its size and its share of failures; those of an empty one are nought. */
  lemma StatsAreOfWindow(log: seq<Outcome>, windowMs: int, now: int)
    ensures var window, stats := Recent(log, now - windowMs), WindowStats(log, windowMs, now);
            && stats.sampleSize == |window| && stats.failureRate * |window| as real == Failures(window) as real
            && (window == [] ==> stats.failureRate == 0.0)
  {
  }

  predicate Alarming(settings: Settings, stats: Stats) {
    stats.sampleSize as real >= settings.minSamples && stats.failureRate >= settings.rateThreshold
  }

  predicate Recovered(settings: Settings, stats: Stats) {
    && stats.sampleSize as real >= (if settings.minSamples / 2.0 > 1.0 then settings.minSamples / 2.0 else 1.0)
    && stats.failureRate <= settings.RecoveryThreshold()
  }

  /** In counts: enough outcomes in the window, and failures at the rate threshold or above. */
  lemma AlarmInCounts(settings: Settings, log: seq<Outcome>, now: int)
    requires settings.Clamped()
    ensures var window := Recent(log, now - settings.windowMs);
            Alarming(settings, WindowStats(log, settings.windowMs, now)) <==>
              && |window| as real >= settings.minSamples
              && Failures(window) as real >= settings.rateThreshold * |window| as real
  {
    var window := Recent(log, now - settings.windowMs);
    if window != [] {
      RateInCounts(Failures(window), |window|, settings.rateThreshold);
    }
  }

  /** In counts: half as many outcomes will do, with failures at half the threshold, or one in twenty, or below. */
  lemma RecoveryInCounts(settings: Settings, log: seq<Outcome>, now: int)
    requires settings.Clamped()
    ensures var window := Recent(log, now - settings.windowMs);
            var n, failures := |window| as real, Failures(window) as real;
            Recovered(settings, WindowStats(log, settings.windowMs, now)) <==>
              && n >= 1.0 && 2.0 * n >= settings.minSamples
              && (2.0 * failures <= settings.rateThreshold * n || 20.0 * failures <= n)
  {
    var window := Recent(log, now - settings.windowMs);
    if window != [] {
      RateInCounts(Failures(window), |window|, settings.rateThreshold / 2.0);
      RateInCounts(Failures(window), |window|, 0.05);
    }
  }

  lemma RateInCounts(failures: nat, n: nat, rate: real)
    requires n > 0
    ensures failures as real / n as real >= rate <==> failures as real >= rate * n as real
    ensures failures as real / n as real <= rate <==> failures as real <= rate * n as real
  {
    var q := failures as real / n as real;
    assert q * n as real == failures as real;
    if q > rate {
      assert (q - rate) * n as real > 0.0;
    } else if q < rate {
      assert (rate - q) * n as real > 0.0;
    }
  }

  /** The failures of a window are its entries that are no successes. */
  lemma {:induction false} FailuresAreCounted(outcomes: seq<Outcome>, more: seq<Outcome>)
    ensures Failures(outcomes + more) == Failures(outcomes) + Failures(more) && Failures(outcomes) <= |outcomes|
    ensures |outcomes| == 1 ==> Failures(outcomes) == if outcomes[0].what then 0 else 1
    decreases |outcomes| + |more|
  {
    if more != [] {
      FailuresAreCounted(outcomes, Front(more));
      assert Front(outcomes + more) == outcomes + Front(more);
    } else {
      assert outcomes + more == outcomes;
      if outcomes != [] {
        FailuresAreCounted(Front(outcomes), []);
      }
    }
  }

  /** A pause holds from `start` until just before `end`; `cause` is the position of the outcome that started it. */
  datatype Pause = Pause(start: int, end: int, cause: nat)

  ghost predicate Justified(settings: Settings, log: seq<Outcome>, pauses: seq<Pause>, i: nat)
    requires i < |pauses|
  {
    var p := pauses[i];
    && p.cause < |log| && !log[p.cause].what && log[p.cause].at <= p.start
    && Alarming(settings, WindowStats(log[..p.cause + 1], settings.windowMs, log[p.cause].at))
    && p.start <= p.end <= p.start + settings.pauseMs
  }

  ghost predicate PausesFit(settings: Settings, log: seq<Outcome>, pauses: seq<Pause>) {
    && (forall i :: 0 <= i < |pauses| ==> Justified(settings, log, pauses, i))
    && (forall i, j :: 0 <= i < j < |pauses| ==> Apart(pauses, i, j))
  }

  /** One pause is over when the other starts, and was caused by an earlier outcome. */
  ghost predicate Apart(pauses: seq<Pause>, i: nat, j: nat)
    requires i < j < |pauses|
  {
    pauses[i].end <= pauses[j].start && pauses[i].cause < pauses[j].cause
  }

  ghost predicate PausedAt(pauses: seq<Pause>, t: int) {
    exists i :: 0 <= i < |pauses| && pauses[i].start <= t < pauses[i].end
  }

  /**
   * What the one deadline says of the last pause: its end.  A resumption that straddles the end stores a deadline past
   * it, which has itself passed by then.
   */
  ghost predicate DeadlineFits(pauses: seq<Pause>, pausedUntil: int, clock: int) {
    if pauses == [] then pausedUntil <= clock
    else
      && Last(pauses).start <= clock
      && Last(pauses).end <= pausedUntil
      && (pausedUntil == Last(pauses).end || pausedUntil <= clock)
  }

  lemma JustifiedLater(settings: Settings, log: seq<Outcome>, pauses: seq<Pause>, e: Outcome)
    requires PausesFit(settings, log, pauses)
    ensures PausesFit(settings, log + [e], pauses)
  {
    var log' := log + [e];
    forall i | 0 <= i < |pauses|
      ensures Justified(settings, log', pauses, i)
    {
      assert Justified(settings, log, pauses, i);
      assert log'[..pauses[i].cause + 1] == log[..pauses[i].cause + 1];
    }
  }

  lemma OutcomeFits(settings: Settings, outcomes: seq<Outcome>, log: seq<Outcome>, pauses: seq<Pause>, clock: int,
                    e: Outcome)
    requires AgreeFrom(outcomes, log, clock - settings.windowMs) && PausesFit(settings, log, pauses) && clock <= e.at
    ensures AgreeFrom(outcomes + [e], log + [e], e.at - settings.windowMs)
    ensures PausesFit(settings, log + [e], pauses)
    ensures pauses != [] ==> Last(pauses).cause < |log|
  {
    AppendAgrees(outcomes, log, clock - settings.windowMs, e);
    AgreeLater(outcomes + [e], log + [e], clock - settings.windowMs, e.at - settings.windowMs);
    JustifiedLater(settings, log, pauses, e);
    CausesAreLogged(settings, log, pauses);
  }

  lemma CausesAreLogged(settings: Settings, log: seq<Outcome>, pauses: seq<Pause>)
    requires PausesFit(settings, log, pauses)
    ensures pauses != [] ==> Last(pauses).cause < |log| && Last(pauses).start <= Last(pauses).end
  {
    assert pauses != [] ==> Justified(settings, log, pauses, |pauses| - 1);
  }

  lemma NewPauseFits(settings: Settings, log: seq<Outcome>, pauses: seq<Pause>, start: int)
    requires PausesFit(settings, log, pauses) && settings.Clamped()
    requires pauses != [] ==> Last(pauses).end <= start && Last(pauses).cause + 1 < |log|
    requires log != [] && !Last(log).what && Last(log).at <= start
    requires Alarming(settings, WindowStats(log, settings.windowMs, Last(log).at))
    ensures var pauses' := pauses + [Pause(start, start + settings.pauseMs, |log| - 1)];
            PausesFit(settings, log, pauses') && DeadlineFits(pauses', start + settings.pauseMs, start)
  {
    assert log[..|log| - 1 + 1] == log;
    var pauses' := pauses + [Pause(start, start + settings.pauseMs, |log| - 1)];
    forall i | 0 <= i < |pauses'|
      ensures Justified(settings, log, pauses', i)
    {
      assert i < |pauses| ==> Justified(settings, log, pauses, i);
    }
    forall i, j | 0 <= i < j < |pauses'|
      ensures Apart(pauses', i, j)
    {
      if j < |pauses| {
        assert Apart(pauses, i, j);
      } else {
        assert i < |pauses| - 1 ==> Apart(pauses, i, |pauses| - 1);
        assert Justified(settings, log, pauses, |pauses| - 1);
      }
    }
  }

  /** Ending the last pause early keeps everything said of the others. */
  lemma CutPauseFits(settings: Settings, log: seq<Outcome>, pauses: seq<Pause>, end: int)
    requires PausesFit(settings, log, pauses) && pauses != []
    requires Last(pauses).start <= end <= Last(pauses).end
    ensures var pauses' := Front(pauses) + [Last(pauses).(end := end)];
            PausesFit(settings, log, pauses') && Last(pauses') == Last(pauses).(end := end)
  {
    var pauses' := Front(pauses) + [Last(pauses).(end := end)];
    forall i | 0 <= i < |pauses'|
      ensures Justified(settings, log, pauses', i)
    {
      assert Justified(settings, log, pauses, i);
    }
    forall i, j | 0 <= i < j < |pauses'|
      ensures Apart(pauses', i, j)
    {
      assert Apart(pauses, i, j);
    }
  }

  /** No instant lies in two pauses, and every pause starts on a failure checked outside all earlier pauses. */
  lemma PausesAreDisjoint(settings: Settings, log: seq<Outcome>, pauses: seq<Pause>)
    requires PausesFit(settings, log, pauses)
    ensures forall i, t :: 0 <= i < |pauses| && pauses[i].start <= t < pauses[i].end ==> !PausedAt(pauses[..i], t)
    ensures forall i :: 0 <= i < |pauses| ==> !PausedAt(pauses[..i], pauses[i].start)
  {
    forall i, j | 0 <= j < i < |pauses|
      ensures pauses[j].end <= pauses[i].start
    {
      assert Apart(pauses, j, i);
    }
  }

  /** From the start of the last pause on, that pause alone says whether there is one. */
  lemma LastPauseDecides(settings: Settings, log: seq<Outcome>, pauses: seq<Pause>, now: int)
    requires PausesFit(settings, log, pauses) && (pauses != [] ==> Last(pauses).start <= now)
    ensures PausedAt(pauses, now) <==> pauses != [] && now < Last(pauses).end
  {
    if pauses != [] {
      var last := |pauses| - 1;
      assert now < pauses[last].end ==> pauses[last].start <= now < pauses[last].end;
      forall i | 0 <= i < last
        ensures pauses[i].end <= pauses[last].start
      {
        assert Apart(pauses, i, last);
      }
    }
  }

  class ValidationBreaker {
    const settings: Settings
    var outcomes: seq<Outcome>
    var pausedUntil: int
    var pauseTriggeredAt: Option<int>
    var pauseCount: nat
    ghost var log: seq<Outcome>
    ghost var pauses: seq<Pause>
    ghost var clock: int

    ghost predicate Valid()
      reads this
    {
      && settings.Clamped()
      && AgreeFrom(outcomes, log, clock - settings.windowMs)
      && PausesFit(settings, log, pauses)
      && pauseCount == |pauses|
      && DeadlineFits(pauses, pausedUntil, clock)
    }

    constructor (windowMs: int, rateThreshold: real, minSamples: real, pauseMs: int, now: int)
      requires now >= 0
      ensures Valid() && log == [] && pauses == [] && clock == now
      ensures settings == Configured(windowMs, rateThreshold, minSamples, pauseMs)
    {
      settings := Configured(windowMs, rateThreshold, minSamples, pauseMs);
      outcomes, pausedUntil, pauseTriggeredAt, pauseCount := [], 0, None, 0;
      log, pauses, clock := [], [], now;
    }

    ghost method PassTime(now: int)
      requires Valid() && clock <= now
      modifies `clock
      ensures Valid() && clock == now
    {
      AgreeLater(outcomes, log, clock - settings.windowMs, now - settings.windowMs);
      clock := now;
    }

    /** The deadline answers for the whole history of pauses. */
    method IsPaused(now: int) returns (paused: bool)
      requires Valid() && clock <= now
      ensures paused <==> PausedAt(pauses, now)
      ensures paused <==> now < pausedUntil
    {
      paused := now < pausedUntil;
      LastPauseDecides(settings, log, pauses, now);
    }

    /** Pruning may use a clock reading taken before an earlier suspension of the handler. */
    method ComputeStats(readAt: int) returns (stats: Stats)
      requires Valid() && readAt <= clock
      modifies `outcomes
      ensures Valid() && outcomes == Recent(old(outcomes), readAt - settings.windowMs)
      ensures readAt == clock ==> stats == WindowStats(log, settings.windowMs, readAt)
    {
      PruneAgrees(outcomes, log, clock - settings.windowMs, readAt - settings.windowMs, clock - settings.windowMs);
      PruneTwice(outcomes, readAt - settings.windowMs, readAt - settings.windowMs);
      outcomes := Recent(outcomes, readAt - settings.windowMs);
      if |outcomes| == 0 {
        return Stats(0.0, 0);
      }
      var failures := 0;
      for i := 0 to |outcomes|
        invariant failures == Failures(outcomes[..i])
      {
        assert Front(outcomes[..i + 1]) == outcomes[..i];
        failures := failures + if outcomes[i].what then 0 else 1;
      }
      assert outcomes[..|outcomes|] == outcomes;
      return Stats(failures as real / |outcomes| as real, |outcomes|);
    }

    method PushOutcome(success: bool, pushedAt: int) returns (stats: Stats)
      requires Valid() && clock <= pushedAt
      modifies this
      ensures Valid() && clock == pushedAt && log == old(log) + [Stamped(pushedAt, success)]
      ensures stats == WindowStats(log, settings.windowMs, pushedAt)
      ensures pauses == old(pauses) && pausedUntil == old(pausedUntil)
      ensures pauseTriggeredAt == old(pauseTriggeredAt) && pauseCount == old(pauseCount)
      ensures pauses != [] ==> Last(pauses).cause + 1 < |log|
    {
      OutcomeFits(settings, outcomes, log, pauses, clock, Stamped(pushedAt, success));
      outcomes := outcomes + [Stamped(pushedAt, success)];
      log := log + [Stamped(pushedAt, success)];
      clock := pushedAt;
      stats := ComputeStats(pushedAt);
    }

    /**
     * `pushedAt` stamps the outcome, `checkedAt` tests for a pause, `actedAt` starts one or tests again before ending
     * one, and `setAt` is stored as the new deadline of a pause that is ended.
     */
    method RecordOutcome(success: bool, pushedAt: int, checkedAt: int, actedAt: int, setAt: int)
      requires Valid() && clock <= pushedAt <= checkedAt <= actedAt <= setAt
      modifies this
      ensures Valid() && clock == setAt && log == old(log) + [Stamped(pushedAt, success)]
      ensures var stats := WindowStats(log, settings.windowMs, pushedAt);
              if !success && !PausedAt(old(pauses), checkedAt) && Alarming(settings, stats) then
                pauses == old(pauses) + [Pause(actedAt, actedAt + settings.pauseMs, |old(log)|)]
              else if PausedAt(old(pauses), actedAt) && Recovered(settings, stats) then
                pauses == Front(old(pauses)) + [Last(old(pauses)).(end := Min(setAt, Last(old(pauses)).end))]
              else
                pauses == old(pauses)
    {
      var stats := PushOutcome(success, pushedAt);
      var paused := IsPaused(checkedAt);
      ghost var stillPaused := IsPaused(actedAt);
      if !success && !paused && Alarming(settings, stats) {
        TriggerPause(actedAt);
      } else if paused && Recovered(settings, stats) {
        Resume(actedAt, setAt);
      }
      PassTime(setAt);
    }

    method TriggerPause(now: int)
      requires Valid() && clock <= now && pausedUntil <= now
      requires log != [] && !Last(log).what && Last(log).at <= now
      requires Alarming(settings, WindowStats(log, settings.windowMs, Last(log).at))
      requires pauses != [] ==> Last(pauses).cause + 1 < |log|
      modifies this
      ensures Valid() && clock == now && log == old(log)
      ensures pauses == old(pauses) + [Pause(now, now + settings.pauseMs, |log| - 1)]
      ensures pausedUntil == now + settings.pauseMs && pauseTriggeredAt == Some(now)
    {
      AgreeLater(outcomes, log, clock - settings.windowMs, now - settings.windowMs);
      NewPauseFits(settings, log, pauses, now);
      pauseTriggeredAt := Some(now);
      pausedUntil := now + settings.pauseMs;
      pauseCount := pauseCount + 1;
      pauses := pauses + [Pause(now, pausedUntil, |log| - 1)];
      clock := now;
    }

    /**
     * `now` tests for the pause and `setAt` becomes the deadline.  The stored deadline can lie past the old one by the
     * gap between the two, but nothing can see it: no other handler runs in the gap, and every later reading is past
     * both.  The pause therefore ends at the earlier of the two.
     */
    method Resume(now: int, setAt: int)
      requires Valid() && clock <= now <= setAt
      modifies this
      ensures Valid() && clock == setAt && log == old(log) && outcomes == old(outcomes)
      ensures pauses == if PausedAt(old(pauses), now)
                        then Front(old(pauses)) + [Last(old(pauses)).(end := Min(setAt, Last(old(pauses)).end))]
                        else old(pauses)
      ensures PausedAt(old(pauses), now) ==> pausedUntil == setAt && pauseTriggeredAt == None
      ensures !PausedAt(old(pauses), now) ==>
                pausedUntil == old(pausedUntil) && pauseTriggeredAt == old(pauseTriggeredAt)
    {
      var paused := IsPaused(now);
      AgreeLater(outcomes, log, clock - settings.windowMs, setAt - settings.windowMs);
      clock := setAt;
      if !paused {
        return;
      }
      ghost var end := Min(setAt, Last(pauses).end);
      CutPauseFits(settings, log, pauses, end);
      pausedUntil := setAt;
      pauseTriggeredAt := None;
      pauses := Front(pauses) + [Last(pauses).(end := end)];
    }

    /** The recovery drill up to its suspension: it reads the statistics, which prunes the window. */
    method StartDrill(statsAt: int) returns (stats: Stats)
      requires Valid() && clock <= statsAt
      modifies this
      ensures Valid() && clock == statsAt && log == old(log) && pauses == old(pauses)
      ensures pausedUntil == old(pausedUntil) && pauseTriggeredAt == old(pauseTriggeredAt)
      ensures stats == WindowStats(log, settings.windowMs, statsAt)
    {
      PassTime(statsAt);
      stats := ComputeStats(statsAt);
    }

    /**
     * The rest of the drill, after anything else may have happened; `again` says that it schedules itself anew.  Its
     * call of `Resume` is dead code: it is reached only once the deadline has passed, and then it does nothing.
     */
    method FinishDrill(checkedAt: int, expiredAt: int, resumedAt: int, setAt: int) returns (again: bool)
      requires Valid() && clock <= checkedAt <= expiredAt <= resumedAt <= setAt
      modifies this
      ensures Valid() && clock == setAt && log == old(log) && pauses == old(pauses)
      ensures pausedUntil == old(pausedUntil) && pauseTriggeredAt == old(pauseTriggeredAt)
      ensures again <==> PausedAt(pauses, checkedAt) && expiredAt < pausedUntil
    {
      var paused := IsPaused(checkedAt);
      again := paused;
      if paused && expiredAt >= pausedUntil {
        LastPauseDecides(settings, log, pauses, resumedAt);
        Resume(resumedAt, setAt);
        again := false;
      }
      PassTime(setAt);
    }
  }

  /**
   * In every run: each pause began on a failure that completed an alarming window, and lasts no longer than
   * configured.
   */
  lemma PausesAreJustified(breaker: ValidationBreaker, i: nat)
    requires breaker.Valid() && i < |breaker.pauses|
    ensures var p, log := breaker.pauses[i], breaker.log;
            && p.end - p.start <= breaker.settings.pauseMs
            && p.cause < |log| && !log[p.cause].what && log[p.cause].at <= p.start
            && Alarming(breaker.settings, WindowStats(log[..p.cause + 1], breaker.settings.windowMs, log[p.cause].at))
            && forall j :: 0 <= j < i ==> breaker.pauses[j].end <= p.start && breaker.pauses[j].cause < p.cause
  {
    assert Justified(breaker.settings, breaker.log, breaker.pauses, i);
    forall j | 0 <= j < i
      ensures breaker.pauses[j].end <= breaker.pauses[i].start && breaker.pauses[j].cause < breaker.pauses[i].cause
    {
      assert Apart(breaker.pauses, j, i);
    }
  }
}
