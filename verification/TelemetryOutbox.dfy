/**
 * The telemetry outbox (agent-gateway/telemetry.ts) on the contract path, from the moment the
 * queue has been loaded.  Each method is one uninterrupted piece of a handler, so any order of
 * calls that the preconditions allow is an interleaving of publishers with flushes.
 */
module TelemetryOutbox {
  import opened Collections
  import opened NonceLog
  import opened EnergyOracle

  datatype Stage = Submitting | Returned | Persisting

  /** The local variables of one call of flushTelemetry. */
  datatype Flush = Flush(snapshot: seq<Sample>, processed: nat, stage: Stage)

  function Users(samples: seq<Sample>): seq<string> {
    if samples == [] then [] else Users(Front(samples)) + [Lower(Last(samples).user.GetOr(""))]
  }

  /** Whose submissions the operator has seen confirmed, in order. */
  function ConfirmedUsers(log: seq<NonceEvent>): seq<string> {
    if log == [] then []
    else if Last(log).Committed? then ConfirmedUsers(Front(log)) + [Last(log).user]
    else ConfirmedUsers(Front(log))
  }

  lemma {:induction false} ConfirmedUsersGrow(log: seq<NonceEvent>, from: nat, to: nat)
    requires from <= to <= |log| && NoCommits(log, from, to)
    ensures ConfirmedUsers(log[..to]) == ConfirmedUsers(log[..from])
  {
    if from < to {
      ConfirmedUsersGrow(log, from, to - 1);
      assert Front(log[..to]) == log[..to - 1];
    }
  }

  ghost predicate FlushFits(f: Flush, queue: seq<Sample>, drained: seq<Sample>, acknowledged: seq<Sample>) {
    && f.processed <= |f.snapshot|
    && (f.stage != Persisting ==>
          f.snapshot <= queue && acknowledged == AttestableOnes(drained + f.snapshot[..f.processed]))
    && (f.stage == Persisting ==>
          f.snapshot[f.processed..] <= queue && acknowledged == AttestableOnes(drained))
  }

  lemma DropFits(f: Flush, queue: seq<Sample>, drained: seq<Sample>, acknowledged: seq<Sample>)
    requires FlushFits(f, queue, drained, acknowledged) && f.stage == Returned
    ensures var drained' := drained + f.snapshot[..f.processed];
            && f.processed <= |queue| && drained + queue == drained' + queue[f.processed..]
            && FlushFits(f.(stage := Persisting), queue[f.processed..], drained', acknowledged)
  {
    assert f.snapshot[..f.processed] == queue[..f.processed];
    assert queue == queue[..f.processed] + queue[f.processed..];
  }

  /** At most one flush is active, and it fits the queue and what has been drained and acknowledged. */
  ghost predicate FlushesFit(flushes: map<nat, Flush>, queue: seq<Sample>, drained: seq<Sample>,
                             acknowledged: seq<Sample>)
  {
    && (forall a, b :: a in flushes && b in flushes ==> a == b)
    && (flushes == map[] ==> acknowledged == AttestableOnes(drained))
    && (forall call :: call in flushes ==> FlushFits(flushes[call], queue, drained, acknowledged))
  }

  /** The one flush moves on. */
  lemma FlushMoves(flushes: map<nat, Flush>, call: nat, f: Flush, queue: seq<Sample>, drained: seq<Sample>,
                   acknowledged: seq<Sample>, acknowledged': seq<Sample>)
    requires FlushesFit(flushes, queue, drained, acknowledged) && call in flushes
    requires FlushFits(f, queue, drained, acknowledged')
    ensures FlushesFit(flushes[call := f], queue, drained, acknowledged')
    ensures flushes[call := f].Keys == flushes.Keys
  {
    var moved := flushes[call := f];
    assert call in moved;
    forall c | c in moved
      ensures c == call
    {
      assert c in flushes;
    }
  }

  /** What handling one more sample of the snapshot acknowledges. */
  lemma HandledFits(f: Flush, queue: seq<Sample>, drained: seq<Sample>, acknowledged: seq<Sample>)
    requires FlushFits(f, queue, drained, acknowledged) && f.stage == Submitting && f.processed < |f.snapshot|
    ensures var sample := f.snapshot[f.processed];
            && AttestableOnes([sample]) == (if Attestable(sample) then [sample] else [])
            && FlushFits(f.(processed := f.processed + 1), queue, drained, acknowledged + AttestableOnes([sample]))
  {
    var sample := f.snapshot[f.processed];
    assert drained + f.snapshot[..f.processed + 1] == (drained + f.snapshot[..f.processed]) + [sample];
    AttestableConcat(drained + f.snapshot[..f.processed], [sample]);
    assert Front([sample]) == [];
  }

  lemma OneSample(acknowledged: seq<Sample>, sample: Sample)
    ensures acknowledged + AttestableOnes([sample]) == if Attestable(sample) then acknowledged + [sample]
                                                       else acknowledged
  {
    assert Front([sample]) == [];
  }

  /** The confirmed users after a submission that ended in a commit, and after one that did not. */
  lemma ConfirmedAfter(before: seq<NonceEvent>, log: seq<NonceEvent>, acknowledged: seq<Sample>, sample: Sample,
                       handled: bool)
    requires before <= log && ConfirmedUsers(before) == Users(acknowledged)
    requires !Attestable(sample) ==> log == before
    requires !handled ==> NoCommits(log, |before|, |log|)
    requires Attestable(sample) && handled ==>
               |log| > |before| && NoCommits(log, |before|, |log| - 1) && Last(log).Committed?
                 && Last(log).user == Lower(sample.user.value)
    ensures ConfirmedUsers(log) ==
              Users(if handled && Attestable(sample) then acknowledged + [sample] else acknowledged)
  {
    assert log[..|before|] == before && log[..|log|] == log;
    if Attestable(sample) {
      if handled {
        ConfirmedUsersGrow(log, |before|, |log| - 1);
        assert Front(acknowledged + [sample]) == acknowledged;
      } else {
        ConfirmedUsersGrow(log, |before|, |log|);
      }
    }
  }

  /**
   * One round: the submission ends with the snapshot or with a sample whose attempts are used up, and otherwise goes on
   * by one sample, acknowledged if it has a valid attestation.
   */
  ghost predicate RoundOutcome(f: Flush, next: Flush, acknowledged: seq<Sample>, acknowledged': seq<Sample>,
                               script: seq<Attempt>, maxRetries: nat)
    requires f.processed <= |f.snapshot|
  {
    if f.processed == |f.snapshot| || (Attestable(f.snapshot[f.processed]) && !SucceedsWithin(script, maxRetries)) then
      next == f.(stage := Returned) && acknowledged' == acknowledged
    else
      && next == f.(processed := f.processed + 1)
      && acknowledged' == acknowledged + AttestableOnes([f.snapshot[f.processed]])
  }

  class Outbox {
    const operator: EnergyOracleOperator
    var queue: seq<Sample>
    var flushing: bool
    var flushes: map<nat, Flush>  // the calls in flight
    ghost var published: seq<Sample>
    ghost var drained: seq<Sample>
    ghost var acknowledged: seq<Sample>

    ghost predicate Valid()
      reads this, operator
    {
      && operator.Valid()
      && published == drained + queue
      && (flushing <==> flushes != map[])
      && FlushesFit(flushes, queue, drained, acknowledged)
      && ConfirmedUsers(operator.log) == Users(acknowledged)
    }

    constructor (queue: seq<Sample>, maxRetries: nat)
      requires maxRetries >= 1
      ensures Valid() && fresh(operator) && published == queue && drained == [] && acknowledged == []
              && flushes == map[]
    {
      operator := new EnergyOracleOperator(maxRetries);
      this.queue, flushing, flushes := queue, false, map[];
      published, drained, acknowledged := queue, [], [];
    }

    method PublishEnergySample(sample: Sample)
      requires Valid()
      modifies this
      ensures Valid() && published == old(published) + [sample] && queue == old(queue) + [sample]
      ensures drained == old(drained) && acknowledged == old(acknowledged) && flushes == old(flushes)
    {
      queue := queue + [sample];
      published := published + [sample];
    }

    /** Starts a flush unless one is active or there is nothing to send. */
    method BeginFlush(call: nat) returns (started: bool)
      requires Valid() && call !in flushes
      modifies this
      ensures Valid() && published == old(published) && queue == old(queue) && drained == old(drained)
      ensures acknowledged == old(acknowledged)
      ensures started <==> old(flushes) == map[] && queue != []
      ensures flushes == if started then map[call := Flush(queue, 0, Submitting)] else old(flushes)
    {
      if flushing {
        return false;
      }
      if |queue| == 0 {
        return false;
      }
      flushing := true;
      flushes := flushes[call := Flush(queue, 0, Submitting)];
      assert drained + queue[..0] == drained;
      return true;
    }

    /** One round of the operator's submission loop for the snapshot, or its return. */
    method SubmitNext(call: nat, script: seq<Attempt>)
      requires Valid() && call in flushes && flushes[call].stage == Submitting
      modifies this, operator
      ensures Valid() && published == old(published) && queue == old(queue) && drained == old(drained)
      ensures flushes.Keys == old(flushes).Keys
      ensures RoundOutcome(old(flushes)[call], flushes[call], old(acknowledged), acknowledged, script,
                           operator.maxRetries)
    {
      ghost var before := acknowledged;
      var next := Round(flushes[call], script);
      FlushMoves(flushes, call, next, queue, drained, before, acknowledged);
      flushes := flushes[call := next];
    }

    method Round(f: Flush, script: seq<Attempt>) returns (next: Flush)
      requires operator.Valid() && ConfirmedUsers(operator.log) == Users(acknowledged)
      requires FlushFits(f, queue, drained, acknowledged) && f.stage == Submitting
      modifies `acknowledged, operator
      ensures operator.Valid() && ConfirmedUsers(operator.log) == Users(acknowledged)
      ensures FlushFits(next, queue, drained, acknowledged)
      ensures RoundOutcome(f, next, old(acknowledged), acknowledged, script, operator.maxRetries)
    {
      if f.processed == |f.snapshot| {
        return f.(stage := Returned);
      }
      HandledFits(f, queue, drained, acknowledged);
      var handled := SubmitOne(f.snapshot[f.processed], script);
      return if handled then f.(processed := f.processed + 1) else f.(stage := Returned);
    }

    /** The operator's part of the round, and the record of what it acknowledged. */
    method SubmitOne(sample: Sample, script: seq<Attempt>) returns (handled: bool)
      requires operator.Valid() && ConfirmedUsers(operator.log) == Users(acknowledged)
      modifies `acknowledged, operator
      ensures operator.Valid() && ConfirmedUsers(operator.log) == Users(acknowledged)
      ensures handled <==> !Attestable(sample) || SucceedsWithin(script, operator.maxRetries)
      ensures acknowledged == if handled then old(acknowledged) + AttestableOnes([sample]) else old(acknowledged)
    {
      ghost var before := operator.log;
      handled := operator.SubmitSample(sample, script);
      ConfirmedAfter(before, operator.log, acknowledged, sample, handled);
      OneSample(acknowledged, sample);
      if handled {
        acknowledged := acknowledged + AttestableOnes([sample]);
      }
    }

    /** The operator could not even be set up. */
    method SenderThrows(call: nat)
      requires Valid() && call in flushes && flushes[call] == Flush(flushes[call].snapshot, 0, Submitting)
      modifies this
      ensures Valid() && published == old(published) && queue == old(queue) && drained == old(drained)
      ensures acknowledged == old(acknowledged)
              && flushes == old(flushes)[call := old(flushes)[call].(stage := Persisting)]
    {
      assert drained + flushes[call].snapshot[..0] == drained;
      flushes := flushes[call := flushes[call].(stage := Persisting)];
    }

    /** Drops what was processed; publishers may have appended meanwhile. */
    method DropProcessed(call: nat)
      requires Valid() && call in flushes && flushes[call].stage == Returned
      modifies this
      ensures Valid() && published == old(published) && acknowledged == old(acknowledged)
      ensures var f := old(flushes)[call];
              && queue == old(queue)[f.processed..]
              && drained == old(drained) + f.snapshot[..f.processed]
              && flushes == old(flushes)[call := f.(stage := Persisting)]
    {
      var f := flushes[call];
      DropFits(f, queue, drained, acknowledged);
      drained := drained + f.snapshot[..f.processed];
      if f.processed > 0 {
        queue := queue[f.processed..];
      }
      flushes := flushes[call := f.(stage := Persisting)];
    }

    method EndFlush(call: nat)
      requires Valid() && call in flushes && flushes[call].stage == Persisting
      modifies this
      ensures Valid() && published == old(published) && queue == old(queue) && drained == old(drained)
      ensures acknowledged == old(acknowledged) == AttestableOnes(drained) && flushes == map[]
    {
      flushing := false;
      flushes := flushes - {call};
    }
  }

  /** At any moment of any interleaving, what a reader of the outbox may rely on. */
  lemma OutboxStory(outbox: Outbox)
    requires outbox.Valid()
    ensures outbox.published == outbox.drained + outbox.queue
    ensures |outbox.flushes| <= 1
    ensures forall call :: call in outbox.flushes ==>
              var f := outbox.flushes[call];
              (if f.stage == Persisting then f.snapshot[f.processed..] else f.snapshot) <= outbox.queue
    ensures forall call :: call in outbox.flushes && outbox.flushes[call].stage != Persisting ==>
              outbox.acknowledged ==
                AttestableOnes(outbox.drained)
                  + AttestableOnes(outbox.flushes[call].snapshot[..outbox.flushes[call].processed])
    ensures outbox.flushes == map[] ==> outbox.acknowledged == AttestableOnes(outbox.drained)
    ensures ConfirmedUsers(outbox.operator.log) == Users(outbox.acknowledged)
  {
    if call :| call in outbox.flushes {
      assert outbox.flushes.Keys == {call};
      var f := outbox.flushes[call];
      AttestableConcat(outbox.drained, f.snapshot[..f.processed]);
    }
  }
}
