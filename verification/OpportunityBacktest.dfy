/** Scoring stored forecasts against job outcomes, over real arithmetic (agent-gateway/opportunityBacktest.ts). */
module OpportunityBacktest {
  import opened Collections
  import opened Grouping
  import opened Sorting

  /** A number field of an input: absent, present but not a finite number, or a number. */
  datatype Raw = Missing | NotANumber | Number(value: real)

  datatype Candidate = Candidate(agent: string, name: Option<string>, ensName: Option<string>, confidence: Raw,
                                 opportunityScore: Option<real>, successRate: Raw, projectedReward: Raw,
                                 projectedNet: Raw, expectedEnergy: Raw)

  /** `storedAt` is None when the timestamp does not parse. */
  datatype Forecast = Forecast(jobId: string, storedAt: Option<real>, category: Option<string>, best: Option<Candidate>)

  datatype Outcome = Outcome(jobId: string, agent: Option<string>, success: bool, reward: Raw, energyEstimate: Raw,
                             sampledEnergy: Raw, category: Option<string>)

  datatype Options = Options(minConfidence: real, maxAgeHours: real, successThreshold: real)

  datatype Status = Evaluated | NoCandidate | LowConfidence | MissingOutcome | Stale

  datatype Record = Record(status: Status, jobId: string, category: Option<string>, confidence: Option<real>,
                           opportunityScore: Option<real>, predictedAgent: Option<string>,
                           predictedLabel: Option<string>,
                           predictedEnsName: Option<string>, agentMatched: Option<bool>, successProbability: Raw,
                           successPredicted: Option<bool>, successActual: Option<bool>, rewardError: Option<real>,
                           netError: Option<real>, energyActual: Option<real>, energyError: Option<real>,
                           energyRelativeError: Option<real>)

  function ClampProbability(x: Raw): (p: real)
    ensures 0.0 <= p <= 1.0
    ensures x.Number? && 0.0 <= x.value <= 1.0 ==> p == x.value
    ensures !x.Number? ==> p == 0.0
  {
    if !x.Number? || x.value <= 0.0 then 0.0 else if x.value >= 1.0 then 1.0 else x.value
  }

  function ToFinite(x: Raw): Option<real> {
    if x.Number? then Some(x.value) else None
  }

  function OrElse(x: Raw, y: Raw): Raw {
    if x.Missing? then y else x
  }

  function Difference(a: Option<real>, b: Option<real>): Option<real> {
    if a.None? || b.None? then None else Some(a.value - b.value)
  }

  function RelativeError(predicted: Option<real>, actual: Option<real>): Option<real> {
    if predicted.None? || actual.None? || actual.value == 0.0 then None
    else Some((predicted.value - actual.value) / actual.value)
  }

  function Abs(x: real): real {
    if x < 0.0 then -x else x
  }

  predicate Same(a: string, b: string) {
    Lower(a) == Lower(b)
  }

  // ----- One forecast -----

  function Bare(f: Forecast): Record {
    Record(NoCandidate, f.jobId, f.category, None, None, None, None, None, None, Missing, None, None, None, None, None,
           None, None)
  }

  function Described(f: Forecast, best: Candidate, status: Status): Record {
    Bare(f).(status := status, confidence := Some(ClampProbability(best.confidence)),
             opportunityScore := best.opportunityScore,
             predictedAgent := Some(best.agent), predictedLabel := best.name, predictedEnsName := best.ensName)
  }

  /** None stands for the error raised for a timestamp that does not parse. */
  function EvaluateForecast(f: Forecast, outcome: Option<Outcome>, options: Options, now: real): Option<Record> {
    if f.best.None? then Some(Bare(f))
    else
      var best := f.best.value;
      if ClampProbability(best.confidence) < options.minConfidence then Some(Described(f, best, LowConfidence))
      else if f.storedAt.None? then None
      else if outcome.None? then
        var tooOld := options.maxAgeHours > 0.0 && now - f.storedAt.value > options.maxAgeHours * 3600000.0;
        Some(Described(f, best, if tooOld then Stale else MissingOutcome))
      else
        var actual := outcome.value;
        var reward := ToFinite(actual.reward);
        var energy := ToFinite(OrElse(actual.energyEstimate, actual.sampledEnergy));
        var net := if reward.Some? && energy.Some? then Some(reward.value - energy.value) else reward;
        var expected := ToFinite(best.expectedEnergy);
        Some(Described(f, best, Evaluated).(
             category := if actual.category.Some? then actual.category else f.category,
             agentMatched := if actual.agent.GetOr("") != "" && best.agent != ""
                             then Some(Same(actual.agent.value, best.agent)) else None,
             successProbability := Number(ClampProbability(best.successRate)),
             successPredicted := if best.successRate.Missing? then None
                                 else Some(ClampProbability(best.successRate) >= options.successThreshold),
             successActual := Some(actual.success),
             rewardError := Difference(ToFinite(best.projectedReward), reward),
             netError := Difference(ToFinite(best.projectedNet), net),
             energyActual := energy,
             energyError := Difference(expected, energy),
             energyRelativeError := RelativeError(expected, energy)))
  }

  predicate Confident(f: Forecast, options: Options) {
    f.best.Some? && ClampProbability(f.best.value.confidence) >= options.minConfidence
  }

  /** Which status a forecast gets, and exactly when it is an error. */
  lemma StatusIsDetermined(f: Forecast, outcome: Option<Outcome>, options: Options, now: real)
    ensures var r := EvaluateForecast(f, outcome, options, now);
            && (r.None? <==> Confident(f, options) && f.storedAt.None?)
            && (r.Some? ==>
                 && (r.value.status.Evaluated? <==> Confident(f, options) && outcome.Some?)
                 && (r.value.status.NoCandidate? <==> f.best.None?)
                 && (r.value.status.LowConfidence? <==> f.best.Some? && !Confident(f, options))
                 && (r.value.status.Stale? <==> Confident(f, options) && outcome.None? && options.maxAgeHours > 0.0
                                                && now - f.storedAt.value > options.maxAgeHours * 3600000.0)
                 && (r.value.confidence.Some? ==> 0.0 <= r.value.confidence.value <= 1.0))
  {
  }

  // ----- What an evaluated record says -----

  /** The forecast and the outcome of an evaluated record. */
  ghost predicate IsEvaluated(f: Forecast, outcome: Option<Outcome>, options: Options) {
    Confident(f, options) && f.storedAt.Some? && outcome.Some?
  }

  /** The energy that the outcome gives: its estimate, or what was sampled when there is none. */
  ghost predicate Reading(outcome: Outcome, energy: real) {
    outcome.energyEstimate == Number(energy)
      || (outcome.energyEstimate.Missing? && outcome.sampledEnergy == Number(energy))
  }

  /** Forecasts that add up have net errors that add up: the net is what is earned less what is used. */
  lemma NetErrorsAddUp(f: Forecast, outcome: Option<Outcome>, options: Options, now: real, energy: real)
    requires IsEvaluated(f, outcome, options) && outcome.value.reward.Number? && Reading(outcome.value, energy)
    requires var best := f.best.value;
             && best.projectedReward.Number? && best.expectedEnergy.Number?
             && best.projectedNet == Number(best.projectedReward.value - best.expectedEnergy.value)
    ensures var r := EvaluateForecast(f, outcome, options, now);
            && r.Some? && r.value.rewardError.Some? && r.value.energyError.Some?
            && r.value.netError == Some(r.value.rewardError.value - r.value.energyError.value)
            && r.value.energyActual == Some(energy)
  {
  }

  /** Without an energy reading the net is the reward, and nothing is said of the energy. */
  lemma NetWithoutReading(f: Forecast, outcome: Option<Outcome>, options: Options, now: real)
    requires IsEvaluated(f, outcome, options) && !outcome.value.energyEstimate.Number?
    requires outcome.value.energyEstimate.Missing? ==> !outcome.value.sampledEnergy.Number?
    requires f.best.value.projectedNet == f.best.value.projectedReward
    ensures var r := EvaluateForecast(f, outcome, options, now);
            && r.Some? && r.value.netError == r.value.rewardError
            && r.value.energyError.None? && r.value.energyActual.None? && r.value.energyRelativeError.None?
  {
  }

  /** A forecast that repeats the outcome is right about everything. */
  lemma PerfectForecast(f: Forecast, outcome: Option<Outcome>, options: Options, now: real, reward: real, energy: real)
    requires IsEvaluated(f, outcome, options) && outcome.value.reward == Number(reward)
             && Reading(outcome.value, energy)
    requires var best := f.best.value;
             && best.projectedReward == Number(reward) && best.expectedEnergy == Number(energy)
             && best.projectedNet == Number(reward - energy)
             && best.successRate == Number(if outcome.value.success then 1.0 else 0.0)
             && best.agent != "" && outcome.value.agent == Some(best.agent)
    requires 0.0 < options.successThreshold <= 1.0
    ensures var r := EvaluateForecast(f, outcome, options, now);
            && r.Some? && r.value.status == Evaluated
            && r.value.rewardError == Some(0.0) && r.value.netError == Some(0.0) && r.value.energyError == Some(0.0)
            && (energy != 0.0 ==> r.value.energyRelativeError == Some(0.0))
            && r.value.agentMatched == Some(true)
            && r.value.successPredicted == Some(outcome.value.success) == r.value.successActual
            && Brier(r.value) == 0.0
  {
    assert Square(0.0) == 0.0;
  }

  /** Each projection moves its own error by as much as it moves itself, and nothing else. */
  lemma ProjectionsMoveTheirErrors(f: Forecast, outcome: Option<Outcome>, options: Options, now: real, delta: real)
    requires IsEvaluated(f, outcome, options) && outcome.value.reward.Number?
    ensures var best := f.best.value;
            var r := EvaluateForecast(f, outcome, options, now);
            && r.Some?
            && (best.projectedReward.Number? ==>
                  var more := f.(best := Some(best.(projectedReward := Number(best.projectedReward.value + delta))));
                  && r.value.rewardError.Some?
                  && EvaluateForecast(more, outcome, options, now) ==
                       Some(r.value.(rewardError := Some(r.value.rewardError.value + delta))))
            && (best.projectedNet.Number? ==>
                  var more := f.(best := Some(best.(projectedNet := Number(best.projectedNet.value + delta))));
                  && r.value.netError.Some?
                  && EvaluateForecast(more, outcome, options, now) ==
                       Some(r.value.(netError := Some(r.value.netError.value + delta))))
  {
  }

  /** The agents match exactly when both are given and differ in the case of letters at most. */
  lemma AgentsMatchUpToCase(f: Forecast, outcome: Option<Outcome>, options: Options, now: real)
    requires IsEvaluated(f, outcome, options)
    ensures var r := EvaluateForecast(f, outcome, options, now);
            var best, actual := f.best.value.agent, outcome.value.agent.GetOr("");
            && r.Some? && (r.value.agentMatched.None? <==> best == "" || actual == "")
            && (r.value.agentMatched.Some? ==> (r.value.agentMatched.value <==> SameUpToCase(best, actual)))
  {
    LowerMeetsUpToCase(f.best.value.agent, outcome.value.agent.GetOr(""));
  }

  /** The rest of an evaluated record: a success is predicted from the threshold on, the outcome's category wins. */
  lemma PredictionsAndCategory(f: Forecast, outcome: Option<Outcome>, options: Options, now: real)
    requires IsEvaluated(f, outcome, options)
    ensures var r := EvaluateForecast(f, outcome, options, now);
            var best := f.best.value;
            && r.Some? && r.value.successActual == Some(outcome.value.success)
            && (r.value.successPredicted.None? <==> best.successRate.Missing?)
            && (best.successRate.Number? && 0.0 <= best.successRate.value <= 1.0 ==>
                  r.value.successPredicted == Some(best.successRate.value >= options.successThreshold))
            && r.value.category == (if outcome.value.category.Some? then outcome.value.category else f.category)
            && r.value.opportunityScore == best.opportunityScore && r.value.jobId == f.jobId
            && r.value.predictedAgent == Some(best.agent) && r.value.predictedLabel == best.name
            && r.value.predictedEnsName == best.ensName
            && (best.confidence.Number? && 0.0 <= best.confidence.value <= 1.0 ==>
                  r.value.confidence == Some(best.confidence.value))
  {
  }

  /** The relative error is the error as a share of the reading. */
  lemma RelativeErrorIsAShare(f: Forecast, outcome: Option<Outcome>, options: Options, now: real)
    requires IsEvaluated(f, outcome, options)
    ensures var r := EvaluateForecast(f, outcome, options, now);
            && r.Some?
            && (r.value.energyRelativeError.Some? <==>
                  r.value.energyError.Some? && r.value.energyActual.Some? && r.value.energyActual.value != 0.0)
            && (r.value.energyRelativeError.Some? ==>
                  r.value.energyRelativeError.value * r.value.energyActual.value == r.value.energyError.value)
  {
  }

  // ----- Accumulators -----

  datatype Totals = Totals(samples: nat, agentMatches: nat, successPredictions: nat, successCorrect: nat,
                           successBrierSum: real, rewardAbsError: real, rewardSquaredError: real, rewardSamples: nat,
                           netAbsError: real, netSamples: nat, energyAbsError: real, energyAbsPct: real,
                           energySamples: nat, confidenceSum: real, opportunityScoreSum: real)

  const ZERO: Totals := Totals(0, 0, 0, 0, 0.0, 0.0, 0.0, 0, 0.0, 0, 0.0, 0.0, 0, 0.0, 0.0)

  /** Every field of both added up. */
  function Plus(a: Totals, b: Totals): Totals {
    Totals(a.samples + b.samples, a.agentMatches + b.agentMatches, a.successPredictions + b.successPredictions,
           a.successCorrect + b.successCorrect, a.successBrierSum + b.successBrierSum,
           a.rewardAbsError + b.rewardAbsError, a.rewardSquaredError + b.rewardSquaredError,
           a.rewardSamples + b.rewardSamples, a.netAbsError + b.netAbsError, a.netSamples + b.netSamples,
           a.energyAbsError + b.energyAbsError, a.energyAbsPct + b.energyAbsPct, a.energySamples + b.energySamples,
           a.confidenceSum + b.confidenceSum, a.opportunityScoreSum + b.opportunityScoreSum)
  }

  predicate Scored(r: Record) {
    r.successPredicted.Some? && r.successActual.Some?
  }

  predicate Metered(r: Record) {
    r.energyError.Some? && r.energyActual.Some?
  }

  function Square(x: real): real {
    x * x
  }

  function Ratio(x: real, y: real): real
    requires y != 0.0
  {
    x / y
  }

  /** The squared distance between the clamped probability and what happened. */
  function Brier(r: Record): real
    requires r.successActual.Some?
  {
    Square(ClampProbability(r.successProbability) - (if r.successActual.value then 1.0 else 0.0))
  }

  function Bit(b: bool): nat {
    if b then 1 else 0
  }

  /** What one record stands for in the totals. */
  function Contribution(r: Record): Totals {
    Totals(1, Bit(r.agentMatched == Some(true)), Bit(Scored(r)),
           Bit(Scored(r) && r.successPredicted == r.successActual),
           if Scored(r) then Brier(r) else 0.0,
           Abs(r.rewardError.GetOr(0.0)), Square(r.rewardError.GetOr(0.0)), Bit(r.rewardError.Some?),
           Abs(r.netError.GetOr(0.0)), Bit(r.netError.Some?),
           if Metered(r) then Abs(r.energyError.value) else 0.0,
           if Metered(r) && r.energyActual.value != 0.0 then Abs(Ratio(r.energyError.value, r.energyActual.value))
           else 0.0,
           Bit(Metered(r)), r.confidence.GetOr(0.0), r.opportunityScore.GetOr(0.0))
  }

  function Sum(records: seq<Record>): Totals {
    if records == [] then ZERO else Plus(Sum(Front(records)), Contribution(Last(records)))
  }

  /** The percentage term is the magnitude of the relative error that the record reports, where it reports one. */
  lemma PercentageIsRelativeError(f: Forecast, outcome: Option<Outcome>, options: Options, now: real)
    ensures var r := EvaluateForecast(f, outcome, options, now);
            r.Some? && r.value.status.Evaluated? ==>
              Contribution(r.value).energyAbsPct == Abs(r.value.energyRelativeError.GetOr(0.0))
  {
  }

  method UpdateStats(stats: Totals, record: Record) returns (updated: Totals)
    ensures updated == Plus(stats, Contribution(record))
  {
    updated := stats.(samples := stats.samples + 1);
    if record.agentMatched == Some(true) {
      updated := updated.(agentMatches := updated.agentMatches + 1);
    }
    updated := AddSuccess(updated, record);
    if record.rewardError.Some? {
      var e := record.rewardError.value;
      updated := updated.(rewardAbsError := updated.rewardAbsError + Abs(e),
                          rewardSquaredError := updated.rewardSquaredError + Square(e),
                          rewardSamples := updated.rewardSamples + 1);
    }
    if record.netError.Some? {
      updated := updated.(netAbsError := updated.netAbsError + Abs(record.netError.value),
                          netSamples := updated.netSamples + 1);
    }
    updated := AddEnergy(updated, record);
    if record.confidence.Some? {
      updated := updated.(confidenceSum := updated.confidenceSum + record.confidence.value);
    }
    if record.opportunityScore.Some? {
      updated := updated.(opportunityScoreSum := updated.opportunityScoreSum + record.opportunityScore.value);
    }
  }

  /** The part of an update about the predicted success. */
  method AddSuccess(stats: Totals, record: Record) returns (updated: Totals)
    ensures updated == stats.(successPredictions := stats.successPredictions + Contribution(record).successPredictions,
                              successCorrect := stats.successCorrect + Contribution(record).successCorrect,
                              successBrierSum := stats.successBrierSum + Contribution(record).successBrierSum)
  {
    updated := stats;
    var probability := ClampProbability(record.successProbability);
    if record.successPredicted.Some? && record.successActual.Some? {
      updated := updated.(successPredictions := updated.successPredictions + 1);
      if record.successPredicted.value == record.successActual.value {
        updated := updated.(successCorrect := updated.successCorrect + 1);
      }
      var actual := if record.successActual.value then 1.0 else 0.0;
      updated := updated.(successBrierSum := updated.successBrierSum + Square(probability - actual));
    }
  }

  /** The part of an update about the metered energy; a zero reading counts as a sample without a percentage. */
  method AddEnergy(stats: Totals, record: Record) returns (updated: Totals)
    ensures updated == stats.(energyAbsError := stats.energyAbsError + Contribution(record).energyAbsError,
                              energyAbsPct := stats.energyAbsPct + Contribution(record).energyAbsPct,
                              energySamples := stats.energySamples + Contribution(record).energySamples)
  {
    updated := stats;
    if record.energyError.Some? && record.energyActual.Some? {
      var e := record.energyError.value;
      updated := updated.(energyAbsError := updated.energyAbsError + Abs(e));
      if record.energyActual.value != 0.0 {
        updated := updated.(energyAbsPct := updated.energyAbsPct + Abs(Ratio(e, record.energyActual.value)));
      }
      updated := updated.(energySamples := updated.energySamples + 1);
    }
  }

  // ----- Metrics -----

  /** `rewardMeanSquare` is the square of the RMSE. */
  datatype Metrics = Metrics(samples: nat, agentMatchRate: Option<real>, successAccuracy: Option<real>,
                             successBrierScore: Option<real>, rewardMAE: Option<real>, rewardMeanSquare: Option<real>,
                             netMAE: Option<real>, energyMAE: Option<real>, energyMAPE: Option<real>,
                             averageConfidence: Option<real>, averageOpportunityScore: Option<real>)

  function Mean(sum: real, count: nat): Option<real> {
    if count > 0 then Some(sum / count as real) else None
  }

  function Summarise(t: Totals): Metrics {
    Metrics(t.samples, Mean(t.agentMatches as real, t.samples), Mean(t.successCorrect as real, t.successPredictions),
            Mean(t.successBrierSum, t.successPredictions), Mean(t.rewardAbsError, t.rewardSamples),
            Mean(t.rewardSquaredError, t.rewardSamples), Mean(t.netAbsError, t.netSamples),
            Mean(t.energyAbsError, t.energySamples), Mean(t.energyAbsPct, t.energySamples),
            Mean(t.confidenceSum, t.samples), Mean(t.opportunityScoreSum, t.samples))
  }

  // ----- What the metrics are the means of -----

  /** The values of those records that have one, in order. */
  function Values(records: seq<Record>, value: Record -> Option<real>): seq<real> {
    if records == [] then []
    else
      var rest := Values(Front(records), value);
      if value(Last(records)).Some? then rest + [value(Last(records)).value] else rest
  }

  function Total(xs: seq<real>): real {
    if xs == [] then 0.0 else Total(Front(xs)) + Last(xs)
  }

  ghost predicate IsMeanOf(metric: Option<real>, xs: seq<real>) {
    metric == Mean(Total(xs), |xs|)
  }

  function Size(error: Option<real>): Option<real> {
    if error.None? then None else Some(if error.value >= 0.0 then error.value else -error.value)
  }

  function One(yes: bool): real {
    if yes then 1.0 else 0.0
  }

  function AgentHit(r: Record): Option<real> {
    Some(One(r.agentMatched == Some(true)))
  }

  /** Whether the prediction was right, for records that make one. */
  function SuccessHit(r: Record): Option<real> {
    if r.successPredicted.None? || r.successActual.None? then None else Some(One(r.successPredicted == r.successActual))
  }

  function Penalty(r: Record): Option<real> {
    if r.successPredicted.None? || r.successActual.None? then None
    else
      var miss := ClampProbability(r.successProbability) - One(r.successActual.value);
      Some(miss * miss)
  }

  function RewardSize(r: Record): Option<real> {
    Size(r.rewardError)
  }

  function RewardSquare(r: Record): Option<real> {
    if r.rewardError.None? then None else Some(r.rewardError.value * r.rewardError.value)
  }

  function NetSize(r: Record): Option<real> {
    Size(r.netError)
  }

  function EnergySize(r: Record): Option<real> {
    if r.energyActual.None? then None else Size(r.energyError)
  }

  /** A zero reading counts as a share of nought. */
  function EnergyShare(r: Record): Option<real> {
    if r.energyActual.None? || r.energyError.None? then None
    else if r.energyActual.value == 0.0 then Some(0.0)
    else Size(Some(r.energyError.value / r.energyActual.value))
  }

  /** A record without one counts as nought. */
  function Confidence(r: Record): Option<real> {
    Some(r.confidence.GetOr(0.0))
  }

  function Score(r: Record): Option<real> {
    Some(r.opportunityScore.GetOr(0.0))
  }

  /** A field of the totals adds up these values, and another counts them. */
  ghost predicate Tracks(sum: Totals -> real, count: Totals -> nat, value: Record -> Option<real>) {
    && sum(ZERO) == 0.0 && count(ZERO) == 0
    && (forall a, b :: sum(Plus(a, b)) == sum(a) + sum(b) && count(Plus(a, b)) == count(a) + count(b))
    && forall r: Record :: TracksRecord(sum, count, value, r)
  }

  ghost predicate TracksRecord(sum: Totals -> real, count: Totals -> nat, value: Record -> Option<real>, r: Record) {
    sum(Contribution(r)) == value(r).GetOr(0.0) && count(Contribution(r)) == Bit(value(r).Some?)
  }

  lemma {:induction false} TracksRecords(records: seq<Record>, sum: Totals -> real, count: Totals -> nat,
                                         value: Record -> Option<real>)
    requires Tracks(sum, count, value)
    ensures sum(Sum(records)) == Total(Values(records, value)) && count(Sum(records)) == |Values(records, value)|
  {
    if records != [] {
      var front, last := Front(records), Last(records);
      TracksRecords(front, sum, count, value);
      assert TracksRecord(sum, count, value, last);
      if value(last).Some? {
        assert Front(Values(front, value) + [value(last).value]) == Values(front, value);
      }
    }
  }

  lemma MeanOfTracked(records: seq<Record>, sum: Totals -> real, count: Totals -> nat, value: Record -> Option<real>)
    requires Tracks(sum, count, value)
    ensures IsMeanOf(Mean(sum(Sum(records)), count(Sum(records))), Values(records, value))
  {
    TracksRecords(records, sum, count, value);
  }

  /** A mean is what adds up to the sum when it is counted for every value. */
  lemma MeanTimesCount(sum: real, count: nat)
    ensures if count == 0 then Mean(sum, count).None?
            else Mean(sum, count).Some? && Mean(sum, count).value * count as real == sum
  {
  }

  lemma MatchAndScoreMeans(records: seq<Record>)
    ensures IsMeanOf(Summarise(Sum(records)).agentMatchRate, Values(records, AgentHit))
    ensures IsMeanOf(Summarise(Sum(records)).averageConfidence, Values(records, Confidence))
    ensures IsMeanOf(Summarise(Sum(records)).averageOpportunityScore, Values(records, Score))
  {
    MeanOfTracked(records, (t: Totals) => t.agentMatches as real, (t: Totals) => t.samples, AgentHit);
    MeanOfTracked(records, (t: Totals) => t.confidenceSum, (t: Totals) => t.samples, Confidence);
    MeanOfTracked(records, (t: Totals) => t.opportunityScoreSum, (t: Totals) => t.samples, Score);
  }

  lemma SuccessMeans(records: seq<Record>)
    ensures IsMeanOf(Summarise(Sum(records)).successAccuracy, Values(records, SuccessHit))
    ensures IsMeanOf(Summarise(Sum(records)).successBrierScore, Values(records, Penalty))
  {
    MeanOfTracked(records, (t: Totals) => t.successCorrect as real, (t: Totals) => t.successPredictions, SuccessHit);
    MeanOfTracked(records, (t: Totals) => t.successBrierSum, (t: Totals) => t.successPredictions, Penalty);
  }

  lemma RewardMeans(records: seq<Record>)
    ensures IsMeanOf(Summarise(Sum(records)).rewardMAE, Values(records, RewardSize))
    ensures IsMeanOf(Summarise(Sum(records)).rewardMeanSquare, Values(records, RewardSquare))
    ensures IsMeanOf(Summarise(Sum(records)).netMAE, Values(records, NetSize))
  {
    MeanOfTracked(records, (t: Totals) => t.rewardAbsError, (t: Totals) => t.rewardSamples, RewardSize);
    MeanOfTracked(records, (t: Totals) => t.rewardSquaredError, (t: Totals) => t.rewardSamples, RewardSquare);
    MeanOfTracked(records, (t: Totals) => t.netAbsError, (t: Totals) => t.netSamples, NetSize);
  }

  lemma EnergyMeans(records: seq<Record>)
    ensures IsMeanOf(Summarise(Sum(records)).energyMAE, Values(records, EnergySize))
    ensures IsMeanOf(Summarise(Sum(records)).energyMAPE, Values(records, EnergyShare))
  {
    MeanOfTracked(records, (t: Totals) => t.energyAbsError, (t: Totals) => t.energySamples, EnergySize);
    MeanOfTracked(records, (t: Totals) => t.energyAbsPct, (t: Totals) => t.energySamples, EnergyShare);
  }

  /** Every metric of a report is the mean of what it is named after, over the records that have it. */
  lemma MetricsAreMeans(records: seq<Record>)
    ensures var m := Summarise(Sum(records));
            && IsMeanOf(m.agentMatchRate, Values(records, AgentHit))
            && IsMeanOf(m.averageConfidence, Values(records, Confidence))
            && IsMeanOf(m.averageOpportunityScore, Values(records, Score))
            && IsMeanOf(m.successAccuracy, Values(records, SuccessHit))
            && IsMeanOf(m.successBrierScore, Values(records, Penalty))
            && IsMeanOf(m.rewardMAE, Values(records, RewardSize))
            && IsMeanOf(m.rewardMeanSquare, Values(records, RewardSquare))
            && IsMeanOf(m.netMAE, Values(records, NetSize))
            && IsMeanOf(m.energyMAE, Values(records, EnergySize))
            && IsMeanOf(m.energyMAPE, Values(records, EnergyShare))
  {
    MatchAndScoreMeans(records);
    SuccessMeans(records);
    RewardMeans(records);
    EnergyMeans(records);
  }

  predicate Unit(x: Option<real>) {
    x.Some? ==> 0.0 <= x.value <= 1.0
  }

  lemma MeanIsUnit(sum: real, count: nat)
    requires 0.0 <= sum <= count as real
    ensures Unit(Mean(sum, count))
  {
    if count > 0 {
      var q := sum / count as real;
      assert q * count as real == sum;
      if q > 1.0 {
        assert (q - 1.0) * count as real > 0.0;
      }
    }
  }

  predicate ConfidenceClamped(r: Record) {
    r.confidence.Some? ==> 0.0 <= r.confidence.value <= 1.0
  }

  /** The Cauchy-Schwarz inequality between `n` values' magnitudes, summed, and their squares, summed. */
  predicate CauchySchwarz(sum: real, squares: real, n: nat) {
    sum >= 0.0 && squares >= 0.0 && sum * sum <= n as real * squares
  }

  ghost predicate Bounded(t: Totals) {
    && t.agentMatches <= t.samples && t.successPredictions <= t.samples && t.successCorrect <= t.successPredictions
    && 0.0 <= t.successBrierSum <= t.successPredictions as real
    && 0.0 <= t.confidenceSum <= t.samples as real
    && CauchySchwarz(t.rewardAbsError, t.rewardSquaredError, t.rewardSamples)
  }

  /** The reward fields of one record. */
  lemma RewardOfOne(r: Record)
    ensures var c := Contribution(r);
            && c.rewardSamples <= 1 && c.rewardAbsError >= 0.0 && c.rewardSquaredError == Square(c.rewardAbsError)
            && (c.rewardSamples == 0 ==> c.rewardAbsError == 0.0)
            && CauchySchwarz(c.rewardAbsError, c.rewardSquaredError, c.rewardSamples)
  {
    var e := r.rewardError.GetOr(0.0);
    assert Square(Abs(e)) == Square(e);
    SquareIsNonNegative(e);
  }

  lemma ContributionIsBounded(r: Record)
    requires ConfidenceClamped(r)
    ensures Bounded(Contribution(r)) && Contribution(r).samples == 1
  {
    if Scored(r) {
      UnitSquare(ClampProbability(r.successProbability) - (if r.successActual.value then 1.0 else 0.0));
    }
    RewardOfOne(r);
  }

  lemma UnitSquare(d: real)
    requires -1.0 <= d <= 1.0
    ensures 0.0 <= Square(d) <= 1.0
  {
    assert Square(d) == Abs(d) * Abs(d) <= Abs(d) * 1.0;
  }

  lemma SquareIsNonNegative(x: real)
    ensures Square(x) >= 0.0
  {
  }

  lemma PositiveProduct(x: real, y: real)
    requires x > 0.0 && y > 0.0
    ensures x * y > 0.0
  {
  }

  lemma CauchySchwarzStep(sum: real, squares: real, n: nat, a: real)
    requires CauchySchwarz(sum, squares, n) && a >= 0.0
    ensures CauchySchwarz(sum + a, squares + Square(a), n + 1)
  {
    SquareIsNonNegative(a);
    var gap := n as real * Square(a) + squares - 2.0 * (sum * a);
    assert (n as real + 1.0) * (squares + Square(a)) ==
             n as real * squares + n as real * Square(a) + squares + Square(a);
    assert (sum + a) * (sum + a) == sum * sum + 2.0 * (sum * a) + Square(a);
    if n == 0 && sum > 0.0 {
      PositiveProduct(sum, sum);
    } else if sum > 0.0 {
      var m := n as real;
      SquareIsNonNegative(m * a - sum);
      assert Square(m * a - sum) == m * (m * Square(a)) - 2.0 * (m * (sum * a)) + sum * sum;
      assert m * gap == m * (m * Square(a)) + m * squares - 2.0 * (m * (sum * a));
      assert m * -gap == -(m * gap);
      if gap < 0.0 {
        PositiveProduct(m, -gap);
      }
    }
  }

  lemma RewardOfMore(t: Totals, c: Totals)
    requires CauchySchwarz(t.rewardAbsError, t.rewardSquaredError, t.rewardSamples)
    requires c.rewardSamples <= 1 && c.rewardAbsError >= 0.0 && c.rewardSquaredError == Square(c.rewardAbsError)
    requires c.rewardSamples == 0 ==> c.rewardAbsError == 0.0
    ensures CauchySchwarz(Plus(t, c).rewardAbsError, Plus(t, c).rewardSquaredError, Plus(t, c).rewardSamples)
  {
    if c.rewardSamples == 1 {
      CauchySchwarzStep(t.rewardAbsError, t.rewardSquaredError, t.rewardSamples, c.rewardAbsError);
    }
  }

  lemma PlusIsBounded(t: Totals, c: Totals)
    requires Bounded(t) && Bounded(c) && c.rewardSamples <= 1
    requires c.rewardSquaredError == Square(c.rewardAbsError) && (c.rewardSamples == 0 ==> c.rewardAbsError == 0.0)
    ensures Bounded(Plus(t, c))
  {
    RewardOfMore(t, c);
  }

  /** The bounds that every sum of records meets. */
  lemma {:induction false} SumsAreBounded(records: seq<Record>)
    requires forall r :: r in records ==> ConfidenceClamped(r)
    ensures Bounded(Sum(records)) && Sum(records).samples == |records|
  {
    if records != [] {
      SumsAreBounded(Front(records));
      assert ConfidenceClamped(Last(records));
      ContributionIsBounded(Last(records));
      RewardOfOne(Last(records));
      PlusIsBounded(Sum(Front(records)), Contribution(Last(records)));
    }
  }

  /** Rates, accuracy and the Brier score are probabilities for every record sequence. */
  lemma RatesAreProbabilities(records: seq<Record>)
    requires forall r :: r in records ==> ConfidenceClamped(r)
    ensures var m := Summarise(Sum(records));
            Unit(m.agentMatchRate) && Unit(m.successAccuracy) && Unit(m.successBrierScore) && Unit(m.averageConfidence)
  {
    SumsAreBounded(records);
    var t := Sum(records);
    MeanIsUnit(t.agentMatches as real, t.samples);
    MeanIsUnit(t.successCorrect as real, t.successPredictions);
    MeanIsUnit(t.successBrierSum, t.successPredictions);
    MeanIsUnit(t.confidenceSum, t.samples);
  }

  lemma {:induction false} RewardErrorsMeetCauchySchwarz(records: seq<Record>)
    ensures var t := Sum(records); CauchySchwarz(t.rewardAbsError, t.rewardSquaredError, t.rewardSamples)
  {
    if records != [] {
      RewardErrorsMeetCauchySchwarz(Front(records));
      RewardOfOne(Last(records));
      RewardOfMore(Sum(Front(records)), Contribution(Last(records)));
    }
  }

  /** The mean absolute reward error never exceeds the root mean square error, for any records whatever. */
  lemma MeanErrorBelowRms(records: seq<Record>, rms: real)
    requires Sum(records).rewardSamples > 0
    requires rms >= 0.0 && Summarise(Sum(records)).rewardMeanSquare == Some(rms * rms)
    ensures Summarise(Sum(records)).rewardMAE.value <= rms
  {
    RewardErrorsMeetCauchySchwarz(records);
    var t := Sum(records);
    MeanBelowRootMeanSquare(t.rewardAbsError, t.rewardSquaredError, t.rewardSamples, rms);
  }

  lemma MeanBelowRootMeanSquare(sum: real, squares: real, n: nat, rms: real)
    requires n > 0 && CauchySchwarz(sum, squares, n)
    requires rms >= 0.0 && squares / n as real == rms * rms
    ensures sum / n as real <= rms
  {
    var m, mean := n as real, sum / n as real;
    var bound := rms * m;
    assert sum == mean * m && squares == (rms * rms) * m;
    assert (sum - bound) * (sum + bound) == sum * sum - bound * bound;
    assert bound * bound == m * ((rms * rms) * m);
    if mean > rms {
      PositiveProduct(m, mean - rms);
      PositiveProduct(sum - bound, sum + bound);
    }
  }

  // ----- The energy percentage -----

  /** A record that a relative energy error can be computed for. */
  predicate Compared(r: Record) {
    Metered(r) && r.energyActual.value != 0.0
  }

  function ComparedCount(records: seq<Record>): nat {
    if records == [] then 0 else ComparedCount(Front(records)) + Bit(Compared(Last(records)))
  }

  /** The mean of the relative errors' magnitudes, which energyMAPE is named after. */
  function MeanRelativeError(records: seq<Record>): Option<real> {
    Mean(Sum(records).energyAbsPct, ComparedCount(records))
  }

  /** Only compared records put anything into the sum, and every metered one is counted in the divisor. */
  lemma {:induction false} ComparedAreMetered(records: seq<Record>)
    ensures ComparedCount(records) <= Sum(records).energySamples
    ensures Sum(records).energyAbsPct >= 0.0
    ensures ComparedCount(records) == 0 ==> Sum(records).energyAbsPct == 0.0
  {
    if records != [] {
      ComparedAreMetered(Front(records));
    }
  }

  /**
   * The reported energyMAPE is the mean of the relative errors if and only if no metered reading is zero, or there are
   * relative errors and all of them are nought.
   */
  lemma PercentageIsMeanUnlessZeroReadings(records: seq<Record>)
    ensures Summarise(Sum(records)).energyMAPE == MeanRelativeError(records) <==>
              ComparedCount(records) == Sum(records).energySamples
              || (ComparedCount(records) > 0 && Sum(records).energyAbsPct == 0.0)
  {
    ComparedAreMetered(records);
    var sum, n, m := Sum(records).energyAbsPct, ComparedCount(records), Sum(records).energySamples;
    if 0 < n < m && sum > 0.0 {
      LargerDivisor(sum, n, m);
    }
  }

  lemma LargerDivisor(sum: real, n: nat, m: nat)
    requires 0 < n < m && sum > 0.0
    ensures sum / m as real < sum / n as real
  {
    var q := sum / m as real;
    assert q * m as real == sum;
    assert q > 0.0;
    PositiveProduct(q, (m - n) as real);
    assert q * n as real < sum;
  }

  /** A witness: a reading predicted twice too high and a reading of zero are reported as half the error. */
  lemma ZeroReadingHalvesThePercentage()
    ensures var best := Candidate("a", None, None, Number(1.0), None, Missing, Missing, Missing, Number(2.0));
            var f := Forecast("1", Some(0.0), None, Some(best));
            var metered := Outcome("1", None, true, Missing, Number(1.0), Missing, None);
            var options := Options(0.2, 24.0, 0.55);
            var r := EvaluateForecast(f, Some(metered), options, 0.0);
            var r0 := EvaluateForecast(f, Some(metered.(energyEstimate := Number(0.0))), options, 0.0);
            && r.Some? && r0.Some?
            && Summarise(Sum([r.value, r0.value])).energyMAPE == Some(0.5)
            && MeanRelativeError([r.value, r0.value]) == Some(1.0)
  {
    var best := Candidate("a", None, None, Number(1.0), None, Missing, Missing, Missing, Number(2.0));
    var f := Forecast("1", Some(0.0), None, Some(best));
    var metered := Outcome("1", None, true, Missing, Number(1.0), Missing, None);
    var options := Options(0.2, 24.0, 0.55);
    var r := EvaluateForecast(f, Some(metered), options, 0.0).value;
    var r0 := EvaluateForecast(f, Some(metered.(energyEstimate := Number(0.0))), options, 0.0).value;
    PercentageOfTwo(r, r0);
  }

  lemma PercentageOfTwo(r: Record, r0: Record)
    requires Metered(r) && Metered(r0) && r.energyActual == Some(1.0) && r.energyError == Some(1.0)
             && r0.energyActual == Some(0.0)
    ensures Sum([r, r0]).energyAbsPct == 1.0 && Sum([r, r0]).energySamples == 2 && ComparedCount([r, r0]) == 1
  {
    SumOfTwo(r, r0);
    ComparedOfTwo(r, r0);
    assert Ratio(1.0, 1.0) == 1.0;
  }

  lemma ComparedOfTwo(r: Record, r0: Record)
    ensures ComparedCount([r, r0]) == Bit(Compared(r)) + Bit(Compared(r0))
  {
    assert Front([r, r0]) == [r] && Front([r]) == [];
    assert ComparedCount([r]) == Bit(Compared(r));
  }

  lemma SumOfTwo(r: Record, r0: Record)
    ensures Sum([r, r0]) == Plus(Contribution(r), Contribution(r0))
  {
    var one, both := [r], [r, r0];
    assert both == one + [r0];
    SumOfOne(r);
    SumOfMore(one, r0);
  }

  lemma SumOfMore(front: seq<Record>, r: Record)
    ensures Sum(front + [r]) == Plus(Sum(front), Contribution(r))
  {
    assert Front(front + [r]) == front;
  }

  // ----- Segments -----

  datatype Segment = Segment(key: string, name: string, stats: Totals)

  datatype Dimension = ByAgent | ByCategory

  /** The segment a record falls in; a record without a predicted agent is in no agent segment. */
  function Key(d: Dimension, r: Record): Option<string> {
    match d
    case ByAgent => if r.predictedAgent.GetOr("") == "" then None else Some(Lower(r.predictedAgent.value))
    case ByCategory => Some(CategoryKey(r.category))
  }

  const UNCATEGORIZED := "uncategorized"

  /** The default is lower-case already. */
  function CategoryKey(category: Option<string>): string {
    if category.Some? then Lower(category.value) else UNCATEGORIZED
  }

  function Label(d: Dimension, r: Record): string {
    match d
    case ByAgent => r.predictedLabel.GetOr(r.predictedEnsName.GetOr(r.predictedAgent.GetOr("")))
    case ByCategory => r.category.GetOr(UNCATEGORIZED)
  }

  /** An agent is called by its label, else its ENS name, else its address, and keyed by its address; so a category. */
  lemma AgentsAndCategoriesAreNamed(r: Record, name: string)
    ensures r.predictedLabel == Some(name) ==> Label(ByAgent, r) == name
    ensures r.predictedLabel.None? && r.predictedEnsName == Some(name) ==> Label(ByAgent, r) == name
    ensures r.predictedLabel.None? && r.predictedEnsName.None? && r.predictedAgent == Some(name) ==>
              Label(ByAgent, r) == name
    ensures r.predictedAgent in {None, Some("")} <==> Key(ByAgent, r).None?
    ensures r.predictedAgent == Some(name) && name != "" ==> Key(ByAgent, r) == Some(Lower(name))
    ensures r.category == Some(name) ==> Label(ByCategory, r) == name && Key(ByCategory, r) == Some(Lower(name))
    ensures r.category.None? ==> Label(ByCategory, r) == "uncategorized" && Key(ByCategory, r) == Some("uncategorized")
  {
  }

  function Position(segments: seq<Segment>, key: string): (i: nat)
    ensures i <= |segments|
    ensures i < |segments| ==> segments[i].key == key
    ensures forall j :: 0 <= j < i ==> segments[j].key != key
  {
    NoneBeforeFirst(segments, (s: Segment) => s.key, key);
    FirstWith(segments, (s: Segment) => s.key, key)
  }

  function Extend(segments: seq<Segment>, key: string, name: string, r: Record): seq<Segment> {
    var i := Position(segments, key);
    if i < |segments| then
      segments[i := Segment(key, if segments[i].name == "" then name else segments[i].name,
                            Plus(segments[i].stats, Contribution(r)))]
    else segments + [Segment(key, name, Contribution(r))]
  }

  /** The segments of a dimension after all the records, in the order their keys first appear. */
  function Grouped(d: Dimension, records: seq<Record>): seq<Segment> {
    if records == [] then []
    else if Key(d, Last(records)).None? then Grouped(d, Front(records))
    else Extend(Grouped(d, Front(records)), Key(d, Last(records)).value, Label(d, Last(records)), Last(records))
  }

  /** The records that fall in some segment. */
  function WithKey(d: Dimension, records: seq<Record>): seq<Record> {
    if records == [] then []
    else if Key(d, Last(records)).None? then WithKey(d, Front(records))
    else WithKey(d, Front(records)) + [Last(records)]
  }

  function TotalOf(segments: seq<Segment>): Totals {
    if segments == [] then ZERO else Plus(TotalOf(Front(segments)), Last(segments).stats)
  }

  class SegmentMap {
    var entries: seq<Segment>  // in insertion order

    constructor ()
      ensures entries == []
    {
      entries := [];
    }

    method Update(key: string, name: string, record: Record)
      modifies this
      ensures entries == Extend(old(entries), key, name, record)
    {
      var i := 0;
      while i < |entries| && entries[i].key != key
        invariant i <= |entries|
        invariant forall j :: 0 <= j < i ==> entries[j].key != key
      {
        i := i + 1;
      }
      assert i == Position(entries, key);
      if i < |entries| {
        var existing := entries[i];
        var stats := UpdateStats(existing.stats, record);
        existing := existing.(stats := stats);
        if existing.name == "" && name != "" {
          existing := existing.(name := name);
        }
        entries := entries[i := existing];
        return;
      }
      var stats := UpdateStats(ZERO, record);
      PlusZero(Contribution(record));
      entries := entries + [Segment(key, name, stats)];
    }
  }

  lemma {:induction false} TotalAfterUpdate(segments: seq<Segment>, i: nat, s: Segment, delta: Totals)
    requires i < |segments| && s.stats == Plus(segments[i].stats, delta)
    ensures TotalOf(segments[i := s]) == Plus(TotalOf(segments), delta)
  {
    var updated := segments[i := s];
    if i == |segments| - 1 {
      assert Front(updated) == Front(segments);
    } else {
      assert Front(updated) == Front(segments)[i := s];
      TotalAfterUpdate(Front(segments), i, s, delta);
    }
  }

  /** Conservation: the segments of a dimension add up to the records that have a key. */
  lemma {:induction false} SegmentsAddUp(d: Dimension, records: seq<Record>)
    ensures TotalOf(Grouped(d, records)) == Sum(WithKey(d, records))
  {
    if records != [] {
      SegmentsAddUp(d, Front(records));
      var last, before := Last(records), Grouped(d, Front(records));
      if Key(d, last).Some? {
        assert Front(WithKey(d, Front(records)) + [last]) == WithKey(d, Front(records));
        var i := Position(before, Key(d, last).value);
        if i < |before| {
          TotalAfterUpdate(before, i, Grouped(d, records)[i], Contribution(last));
        } else {
          assert Front(Grouped(d, records)) == before;
        }
      }
    }
  }

  /** Every record has a category, so the category segments add up to the overall totals, field by field. */
  lemma CategoriesCoverEverything(records: seq<Record>)
    ensures TotalOf(Grouped(ByCategory, records)) == Sum(records)
  {
    SegmentsAddUp(ByCategory, records);
    AllHaveCategories(records);
  }

  lemma {:induction false} AllHaveCategories(records: seq<Record>)
    ensures WithKey(ByCategory, records) == records
  {
    if records != [] {
      AllHaveCategories(Front(records));
      FrontAndLast(records);
    }
  }

  // ----- What a segment holds -----

  function Entries(d: Dimension, records: seq<Record>): seq<Keyed<Record>> {
    if records == [] then []
    else if Key(d, Last(records)).None? then Entries(d, Front(records))
    else Entries(d, Front(records)) + [Keyed(Key(d, Last(records)).value, Last(records))]
  }

  /** The first non-empty label among the records of a segment, else the empty label. */
  function LabelOf(d: Dimension, members: seq<Record>): string {
    if members == [] then ""
    else if LabelOf(d, Front(members)) != "" then LabelOf(d, Front(members))
    else Label(d, Last(members))
  }

  lemma {:induction false} LabelIsFirstGiven(d: Dimension, members: seq<Record>)
    ensures LabelOf(d, members) == "" ==> forall j :: 0 <= j < |members| ==> Label(d, members[j]) == ""
    ensures LabelOf(d, members) != "" ==>
              exists i :: 0 <= i < |members| && FirstLabel(d, members, LabelOf(d, members), i)
  {
    if members != [] {
      var front, name := Front(members), LabelOf(d, Front(members));
      LabelIsFirstGiven(d, front);
      LabelOfMore(d, front, Last(members), name);
      assert members == front + [Last(members)];
    }
  }

  lemma LabelOfMore(d: Dimension, front: seq<Record>, r: Record, name: string)
    requires name == "" ==> forall j :: 0 <= j < |front| ==> Label(d, front[j]) == ""
    requires name != "" ==> exists i :: 0 <= i < |front| && FirstLabel(d, front, name, i)
    ensures var all, now := front + [r], if name == "" then Label(d, r) else name;
            && (now == "" ==> forall j :: 0 <= j < |all| ==> Label(d, all[j]) == "")
            && (now != "" ==> exists i :: 0 <= i < |all| && FirstLabel(d, all, now, i))
  {
    var all := front + [r];
    if name != "" {
      var i :| 0 <= i < |front| && FirstLabel(d, front, name, i);
      assert FirstLabel(d, all, name, i);
    } else if Label(d, r) != "" {
      assert FirstLabel(d, all, Label(d, r), |front|);
    }
  }

  ghost predicate FirstLabel(d: Dimension, members: seq<Record>, name: string, i: nat)
    requires i < |members|
  {
    Label(d, members[i]) == name && forall j :: 0 <= j < i ==> Label(d, members[j]) == ""
  }

  function SegmentOf(d: Dimension, g: Group<Record>): Segment {
    Segment(g.key, LabelOf(d, g.members), Sum(g.members))
  }

  ghost predicate Mirrors(d: Dimension, segments: seq<Segment>, groups: seq<Group<Record>>) {
    |segments| == |groups| && forall i :: 0 <= i < |segments| ==> segments[i] == SegmentOf(d, groups[i])
  }

  lemma SegmentOfMore(d: Dimension, g: Group<Record>, r: Record)
    ensures SegmentOf(d, Group(g.key, g.members + [r])) ==
            Segment(g.key, if LabelOf(d, g.members) == "" then Label(d, r) else LabelOf(d, g.members),
                    Plus(Sum(g.members), Contribution(r)))
  {
    assert Front(g.members + [r]) == g.members;
  }

  lemma SegmentOfOne(d: Dimension, key: string, r: Record)
    ensures SegmentOf(d, Group(key, [r])) == Segment(key, Label(d, r), Contribution(r))
  {
    LabelOfOne(d, r);
    SumOfOne(r);
  }

  lemma LabelOfOne(d: Dimension, r: Record)
    ensures LabelOf(d, [r]) == Label(d, r)
  {
    assert Front([r]) == [];
  }

  lemma SumOfOne(r: Record)
    ensures Sum([r]) == Contribution(r)
  {
    assert Front([r]) == [];
    PlusZero(Contribution(r));
  }

  lemma PlusZero(t: Totals)
    ensures Plus(ZERO, t) == t
  {
  }

  lemma {:induction false} SamePlace(d: Dimension, segments: seq<Segment>, groups: seq<Group<Record>>, key: string)
    requires Mirrors(d, segments, groups)
    ensures Position(segments, key) == Place(groups, key)
  {
    if segments != [] && segments[0].key != key {
      assert Mirrors(d, segments[1..], groups[1..]);
      SamePlace(d, segments[1..], groups[1..], key);
    }
  }

  lemma ExtendMirrorsEnter(d: Dimension, segments: seq<Segment>, groups: seq<Group<Record>>, key: string, r: Record)
    requires Mirrors(d, segments, groups)
    ensures Mirrors(d, Extend(segments, key, Label(d, r), r), Enter(groups, key, r))
  {
    SamePlace(d, segments, groups, key);
    var p := Place(groups, key);
    if p < |groups| {
      SegmentOfMore(d, groups[p], r);
    } else {
      SegmentOfOne(d, key, r);
    }
  }

  /**
   * The accumulated segments are the groups of the records, each summed and labelled on its own: each key has one
   * segment, and the segment holds exactly the totals of the records with that key.
   */
  lemma {:induction false} SegmentsAreGroups(d: Dimension, records: seq<Record>)
    ensures Mirrors(d, Grouped(d, records), GroupAll(Entries(d, records)))
    ensures Partitions(GroupAll(Entries(d, records)), Entries(d, records))
  {
    GroupsPartition(Entries(d, records));
    if records != [] {
      SegmentsAreGroups(d, Front(records));
      if Key(d, Last(records)).Some? {
        var entries, key := Entries(d, Front(records)), Key(d, Last(records)).value;
        assert Front(entries + [Keyed(key, Last(records))]) == entries;
        ExtendMirrorsEnter(d, Grouped(d, Front(records)), GroupAll(entries), key, Last(records));
      }
    }
  }

  // ----- The order of the segments -----

  /** More samples first, then by key; `before` is the locale's order of keys. */
  function SegmentOrder(before: (string, string) -> bool): (Segment, Segment) -> bool {
    (a: Segment, b: Segment) => a.stats.samples > b.stats.samples
      || (a.stats.samples == b.stats.samples && before(a.key, b.key))
  }

  lemma SegmentOrderIsOrder(before: (string, string) -> bool)
    requires StrictWeakOrder(before)
    ensures StrictWeakOrder(SegmentOrder(before))
  {
    forall a, b, c
      ensures WeaklyOrdered(SegmentOrder(before), a, b, c)
    {
      assert WeaklyOrdered(before, a.key, b.key, c.key);
    }
  }

  lemma PlusSwaps(a: Totals, b: Totals, c: Totals)
    ensures Plus(Plus(a, b), c) == Plus(Plus(a, c), b)
  {
  }

  lemma {:induction false} InsertAddsUp(s: seq<Segment>, x: Segment, order: (Segment, Segment) -> bool)
    ensures TotalOf(Insert(s, x, order)) == Plus(TotalOf(s), x.stats)
  {
    if s != [] && order(x, Last(s)) {
      InsertAddsUp(Front(s), x, order);
      var front := Insert(Front(s), x, order);
      assert Front(front + [Last(s)]) == front;
      PlusSwaps(TotalOf(Front(s)), Last(s).stats, x.stats);
    } else {
      assert Front(s + [x]) == s;
    }
  }

  /** Sorting the segments does not change what they add up to. */
  lemma {:induction false} SortedAddUp(s: seq<Segment>, order: (Segment, Segment) -> bool)
    ensures TotalOf(StableSort(s, order)) == TotalOf(s)
  {
    if s != [] {
      SortedAddUp(Front(s), order);
      InsertAddsUp(StableSort(Front(s), order), Last(s), order);
    }
  }

  // ----- The report -----

  datatype Report = Report(totalForecasts: nat, evaluatedForecasts: nat, ignoredLowConfidence: nat,
                           missingOutcomes: nat,
                           staleForecasts: nat, metrics: Metrics, byAgent: seq<Segment>, byCategory: seq<Segment>,
                           records: seq<Record>)

  function Only(records: seq<Record>, status: Status): seq<Record> {
    if records == [] then []
    else if Last(records).status == status then Only(Front(records), status) + [Last(records)]
    else Only(Front(records), status)
  }

  lemma {:induction false} OnlyMembers(records: seq<Record>, status: Status)
    ensures forall r :: r in Only(records, status) <==> r in records && r.status == status
  {
    if records != [] {
      OnlyMembers(Front(records), status);
      assert records == Front(records) + [Last(records)];
    }
  }

  /** Every forecast has exactly one status. */
  lemma {:induction false} StatusesPartition(records: seq<Record>)
    ensures |records| == |Only(records, Evaluated)| + |Only(records, LowConfidence)| + |Only(records, MissingOutcome)|
                         + |Only(records, Stale)| + |Only(records, NoCandidate)|
  {
    if records != [] {
      StatusesPartition(Front(records));
    }
  }

  /** A later entry for the same job replaces an earlier one. */
  function LatestOutcome(dataset: seq<Outcome>, jobId: string): Option<Outcome> {
    if dataset == [] then None
    else if Last(dataset).jobId == jobId then Some(Last(dataset))
    else LatestOutcome(Front(dataset), jobId)
  }

  /** The outcome of a job that no later one in the dataset replaces. */
  lemma {:induction false} LatestIsLast(dataset: seq<Outcome>, jobId: string) returns (i: int)
    ensures var latest := LatestOutcome(dataset, jobId);
            if latest.None? then i == -1
            else 0 <= i < |dataset| && dataset[i] == latest.value && dataset[i].jobId == jobId
    ensures forall j :: i < j < |dataset| ==> dataset[j].jobId != jobId
  {
    if dataset == [] {
      i := -1;
    } else if Last(dataset).jobId == jobId {
      i := |dataset| - 1;
    } else {
      i := LatestIsLast(Front(dataset), jobId);
    }
  }

  method IndexOutcomes(dataset: seq<Outcome>) returns (byJob: map<string, Outcome>)
    ensures forall id :: (if id in byJob then Some(byJob[id]) else None) == LatestOutcome(dataset, id)
  {
    byJob := map[];
    for i := 0 to |dataset|
      invariant forall id :: (if id in byJob then Some(byJob[id]) else None) == LatestOutcome(dataset[..i], id)
    {
      assert Front(dataset[..i + 1]) == dataset[..i];
      byJob := byJob[dataset[i].jobId := dataset[i]];
    }
    assert dataset[..|dataset|] == dataset;
  }

  predicate Since(f: Forecast, since: Option<real>) {
    since.GetOr(0.0) == 0.0 || f.storedAt.None? || f.storedAt.value >= since.value
  }

  function Filtered(forecasts: seq<Forecast>, since: Option<real>): seq<Forecast> {
    if forecasts == [] then []
    else if Since(Last(forecasts), since) then Filtered(Front(forecasts), since) + [Last(forecasts)]
    else Filtered(Front(forecasts), since)
  }

  /** Dropped are exactly the forecasts stored before the instant that is asked for; the others keep their order. */
  lemma {:induction false} FilterDropsTheOlder(forecasts: seq<Forecast>, more: seq<Forecast>, since: Option<real>)
    ensures Filtered(forecasts + more, since) == Filtered(forecasts, since) + Filtered(more, since)
    ensures |more| == 1 ==>
              var f := more[0];
              Filtered(more, since) ==
              if since !in {None, Some(0.0)} && f.storedAt.Some? && f.storedAt.value < since.value then [] else [f]
  {
    if more == [] {
      assert forecasts + more == forecasts;
    } else {
      FilterDropsTheOlder(forecasts, Front(more), since);
      assert Front(forecasts + more) == forecasts + Front(more);
      assert |more| == 1 ==> Front(more) == [];
    }
  }

  function EvaluatedOne(f: Forecast, dataset: seq<Outcome>, options: Options, now: real): Option<Record> {
    EvaluateForecast(f, LatestOutcome(dataset, f.jobId), options, now)
  }

  ghost predicate Accounts(report: Report, records: seq<Record>, before: (string, string) -> bool) {
    var evaluated := Only(records, Evaluated);
    && report.records == records
    && report.totalForecasts == |records|
    && report.evaluatedForecasts == |evaluated|
    && report.ignoredLowConfidence == |Only(records, LowConfidence)|
    && report.missingOutcomes == |Only(records, MissingOutcome)|
    && report.staleForecasts == |Only(records, Stale)|
    && report.metrics == Summarise(Sum(evaluated))
    && report.byAgent == StableSort(Grouped(ByAgent, evaluated), SegmentOrder(before))
    && report.byCategory == StableSort(Grouped(ByCategory, evaluated), SegmentOrder(before))
  }

  /** What the loop has accumulated once it has gone over `records`. */
  ghost predicate Accumulated(records: seq<Record>, overall: Totals, evaluated: nat, lowConfidence: nat, missing: nat,
                              stale: nat, byAgent: seq<Segment>, byCategory: seq<Segment>) {
    && overall == Sum(Only(records, Evaluated)) && evaluated == |Only(records, Evaluated)|
    && byAgent == Grouped(ByAgent, Only(records, Evaluated))
    && byCategory == Grouped(ByCategory, Only(records, Evaluated))
    && lowConfidence == |Only(records, LowConfidence)| && missing == |Only(records, MissingOutcome)|
    && stale == |Only(records, Stale)|
  }

  lemma OnlyAfter(records: seq<Record>, r: Record, status: Status)
    ensures Only(records + [r], status) == Only(records, status) + (if r.status == status then [r] else [])
  {
    assert Front(records + [r]) == records;
  }

  lemma OnlyAfterEach(records: seq<Record>, r: Record)
    ensures forall status :: Only(records + [r], status) ==
              Only(records, status) + (if r.status == status then [r] else [])
  {
    forall status
      ensures Only(records + [r], status) == Only(records, status) + (if r.status == status then [r] else [])
    {
      OnlyAfter(records, r, status);
    }
  }

  lemma GroupedMore(d: Dimension, evaluated: seq<Record>, r: Record)
    ensures Grouped(d, evaluated + [r]) ==
            if Key(d, r).None? then Grouped(d, evaluated)
            else Extend(Grouped(d, evaluated), Key(d, r).value, Label(d, r), r)
  {
    assert Front(evaluated + [r]) == evaluated;
  }

  lemma AccumulatedMore(records: seq<Record>, r: Record, overall: Totals, evaluated: nat, lowConfidence: nat,
                        missing: nat,
                        stale: nat, byAgent: seq<Segment>, byCategory: seq<Segment>, overall': Totals,
                        byAgent': seq<Segment>, byCategory': seq<Segment>)
    requires Accumulated(records, overall, evaluated, lowConfidence, missing, stale, byAgent, byCategory)
    requires var all := if r.status.Evaluated? then Only(records, Evaluated) + [r] else Only(records, Evaluated);
             overall' == Sum(all) && byAgent' == Grouped(ByAgent, all) && byCategory' == Grouped(ByCategory, all)
    ensures Accumulated(records + [r], overall', evaluated + Bit(r.status.Evaluated?),
                        lowConfidence + Bit(r.status.LowConfidence?),
                        missing + Bit(r.status.MissingOutcome?), stale + Bit(r.status.Stale?), byAgent', byCategory')
  {
    OnlyAfterEach(records, r);
    assert Only(records, Evaluated) + [] == Only(records, Evaluated);
  }

  /** Adds an evaluated record to the overall totals and to its segments; `before` are those added so far. */
  method CountEvaluated(ghost before: seq<Record>, record: Record, overall: Totals, byAgent: SegmentMap,
                        byCategory: SegmentMap)
    returns (updated: Totals)
    requires byAgent != byCategory && overall == Sum(before)
    requires byAgent.entries == Grouped(ByAgent, before)
    requires byCategory.entries == Grouped(ByCategory, before)
    modifies byAgent, byCategory
    ensures updated == Sum(before + [record])
    ensures byAgent.entries == Grouped(ByAgent, before + [record])
    ensures byCategory.entries == Grouped(ByCategory, before + [record])
  {
    updated := UpdateStats(overall, record);
    SumOfMore(before, record);
    CountForAgent(before, record, byAgent);
    CountInCategory(before, record, byCategory);
  }

  method CountForAgent(ghost before: seq<Record>, record: Record, byAgent: SegmentMap)
    requires byAgent.entries == Grouped(ByAgent, before)
    modifies byAgent
    ensures byAgent.entries == Grouped(ByAgent, before + [record])
  {
    GroupedMore(ByAgent, before, record);
    var agent := record.predictedAgent.GetOr("");
    if agent != "" {
      byAgent.Update(Lower(agent), record.predictedLabel.GetOr(record.predictedEnsName.GetOr(agent)), record);
    }
  }

  method CountInCategory(ghost before: seq<Record>, record: Record, byCategory: SegmentMap)
    requires byCategory.entries == Grouped(ByCategory, before)
    modifies byCategory
    ensures byCategory.entries == Grouped(ByCategory, before + [record])
  {
    GroupedMore(ByCategory, before, record);
    byCategory.Update(CategoryKey(record.category), record.category.GetOr(UNCATEGORIZED), record);
  }

  /** The records are those of the first forecasts, in order. */
  ghost predicate EvaluatedAll(forecasts: seq<Forecast>, records: seq<Record>, dataset: seq<Outcome>, options: Options,
                               now: real)
  {
    && |records| <= |forecasts|
    && forall i :: 0 <= i < |records| ==> EvaluatedOne(forecasts[i], dataset, options, now) == Some(records[i])
  }

  lemma EvaluatedMore(forecasts: seq<Forecast>, records: seq<Record>, dataset: seq<Outcome>, options: Options,
                      now: real, r: Record)
    requires EvaluatedAll(forecasts, records, dataset, options, now) && |records| < |forecasts|
    requires EvaluatedOne(forecasts[|records|], dataset, options, now) == Some(r)
    ensures EvaluatedAll(forecasts, records + [r], dataset, options, now)
  {
  }

  lemma NoneIsAnError(forecasts: seq<Forecast>, records: seq<Record>, dataset: seq<Outcome>, options: Options,
                      now: real)
    requires EvaluatedAll(forecasts, records, dataset, options, now) && |records| == |forecasts|
    ensures forall f :: f in forecasts ==> EvaluatedOne(f, dataset, options, now).Some?
  {
  }

  /** None stands for the error that some forecast's timestamp does not parse. */
  method Build(forecasts: seq<Forecast>, since: Option<real>, dataset: seq<Outcome>, options: Options, now: real,
               before: (string, string) -> bool)
    returns (report: Option<Report>)
    ensures report.None? <==>
            exists f :: f in Filtered(forecasts, since) && EvaluatedOne(f, dataset, options, now).None?
    ensures report.Some? ==>
              && Accounts(report.value, report.value.records, before)
              && |report.value.records| == |Filtered(forecasts, since)|
              && EvaluatedAll(Filtered(forecasts, since), report.value.records, dataset, options, now)
  {
    var filtered := Filtered(forecasts, since);
    var byJob := IndexOutcomes(dataset);
    var overall, evaluated, records := ZERO, 0, [];
    var byAgent := new SegmentMap();
    var byCategory := new SegmentMap();
    var lowConfidence, missing, stale := 0, 0, 0;
    for i := 0 to |filtered|
      invariant |records| == i && EvaluatedAll(filtered, records, dataset, options, now)
      invariant Accumulated(records, overall, evaluated, lowConfidence, missing, stale, byAgent.entries,
                            byCategory.entries)
    {
      var forecast := filtered[i];
      var outcome := if forecast.jobId in byJob then Some(byJob[forecast.jobId]) else None;
      var result := EvaluateForecast(forecast, outcome, options, now);
      assert result == EvaluatedOne(forecast, dataset, options, now);
      if result.None? {
        return None;
      }
      var record := result.value;
      EvaluatedMore(filtered, records, dataset, options, now, record);
      ghost var earlier, overall0, byAgent0, byCategory0 := records, overall, byAgent.entries, byCategory.entries;
      ghost var evaluated0, lowConfidence0, missing0, stale0 := evaluated, lowConfidence, missing, stale;
      records := records + [record];
      if record.status == LowConfidence {
        lowConfidence := lowConfidence + 1;
      } else if record.status == MissingOutcome {
        missing := missing + 1;
      } else if record.status == Stale {
        stale := stale + 1;
      } else if record.status == Evaluated {
        overall := CountEvaluated(Only(earlier, Evaluated), record, overall, byAgent, byCategory);
        evaluated := evaluated + 1;
      }
      AccumulatedMore(earlier, record, overall0, evaluated0, lowConfidence0, missing0, stale0, byAgent0, byCategory0,
                      overall, byAgent.entries, byCategory.entries);
    }
    NoneIsAnError(filtered, records, dataset, options, now);
    report := Some(Report(|filtered|, evaluated, lowConfidence, missing, stale, Summarise(overall),
                          StableSort(byAgent.entries, SegmentOrder(before)),
                          StableSort(byCategory.entries, SegmentOrder(before)), records));
  }

  /**
   * What every report satisfies: statuses partition, categories add up to the whole, rates are probabilities, and the
   * segments are those of the groups, ordered.
   */
  lemma ReportsAreConsistent(report: Report, forecasts: seq<Forecast>, dataset: seq<Outcome>, options: Options,
                             now: real, before: (string, string) -> bool)
    requires StrictWeakOrder(before)
    requires Accounts(report, report.records, before) && |report.records| == |forecasts|
    requires EvaluatedAll(forecasts, report.records, dataset, options, now)
    ensures report.totalForecasts == report.evaluatedForecasts + report.ignoredLowConfidence + report.missingOutcomes
                                     + report.staleForecasts + |Only(report.records, NoCandidate)|
    ensures Summarise(TotalOf(report.byCategory)) == report.metrics
    ensures SegmentsOf(ByCategory, report.byCategory, Only(report.records, Evaluated), before)
    ensures SegmentsOf(ByAgent, report.byAgent, Only(report.records, Evaluated), before)
    ensures report.metrics.samples == report.evaluatedForecasts
    ensures Unit(report.metrics.agentMatchRate) && Unit(report.metrics.successAccuracy)
            && Unit(report.metrics.successBrierScore) && Unit(report.metrics.averageConfidence)
  {
    var evaluated := Only(report.records, Evaluated);
    StatusesPartition(report.records);
    CategoriesCoverEverything(evaluated);
    SortedAddUp(Grouped(ByCategory, evaluated), SegmentOrder(before));
    SortedSegments(ByCategory, evaluated, before);
    SortedSegments(ByAgent, evaluated, before);
    EvaluatedAreClamped(report.records, forecasts, dataset, options, now);
    RatesAreProbabilities(evaluated);
    SumsAreBounded(evaluated);
  }

  lemma EvaluatedAreClamped(records: seq<Record>, forecasts: seq<Forecast>, dataset: seq<Outcome>, options: Options,
                            now: real)
    requires EvaluatedAll(forecasts, records, dataset, options, now)
    ensures forall r :: r in Only(records, Evaluated) ==> ConfidenceClamped(r)
  {
    OnlyMembers(records, Evaluated);
    forall r | r in Only(records, Evaluated)
      ensures ConfidenceClamped(r)
    {
      var i :| 0 <= i < |records| && records[i] == r;
      StatusIsDetermined(forecasts[i], LatestOutcome(dataset, forecasts[i].jobId), options, now);
    }
  }

  /** More samples come first, and of equally many the earlier key. */
  ghost predicate RankedBySamples(segments: seq<Segment>, before: (string, string) -> bool) {
    forall i, j :: 0 <= i < j < |segments| ==>
      segments[i].stats.samples >= segments[j].stats.samples
      && (segments[i].stats.samples == segments[j].stats.samples ==> !before(segments[j].key, segments[i].key))
  }

  /** Ordered, and a rearrangement of the groups of the records, each summed and labelled on its own. */
  ghost predicate SegmentsOf(d: Dimension, segments: seq<Segment>, records: seq<Record>,
                             before: (string, string) -> bool)
  {
    && RankedBySamples(segments, before)
    && exists s :: multiset(segments) == multiset(s) && Mirrors(d, s, GroupAll(Entries(d, records)))
  }

  lemma SortedSegments(d: Dimension, records: seq<Record>, before: (string, string) -> bool)
    requires StrictWeakOrder(before)
    ensures SegmentsOf(d, StableSort(Grouped(d, records), SegmentOrder(before)), records, before)
  {
    SegmentOrderIsOrder(before);
    SortSorts(Grouped(d, records), SegmentOrder(before));
    SegmentsAreGroups(d, records);
    var segments := StableSort(Grouped(d, records), SegmentOrder(before));
    forall i, j | 0 <= i < j < |segments|
      ensures segments[i].stats.samples >= segments[j].stats.samples
      ensures segments[i].stats.samples == segments[j].stats.samples ==> !before(segments[j].key, segments[i].key)
    {
      assert !SegmentOrder(before)(segments[j], segments[i]);
    }
  }
}
