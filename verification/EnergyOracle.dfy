/**
 * The energy oracle operator (agent-gateway/operator.ts): nonce reservation, retries and the
 * submission of a batch of samples.  What the network does is a parameter.
 */
module EnergyOracle {
  import opened Collections
  import opened NonceLog

  /** `user` is None when the agent address is malformed, `jobId` when it is not a number. */
  datatype Sample = Sample(id: nat, user: Option<string>, jobId: Option<int>)

  /** Samples that no attestation can be built for are counted as processed and skipped. */
  predicate Attestable(s: Sample) {
    s.user.Some? && s.jobId.Some?
  }

  function AttestableOnes(samples: seq<Sample>): seq<Sample> {
    if samples == [] then []
    else if Attestable(Last(samples)) then AttestableOnes(Front(samples)) + [Last(samples)]
    else AttestableOnes(Front(samples))
  }

  lemma {:induction false} AttestableConcat(a: seq<Sample>, b: seq<Sample>)
    ensures AttestableOnes(a + b) == AttestableOnes(a) + AttestableOnes(b)
  {
    if b == [] {
      assert a + b == a;
    } else {
      assert Front(a + b) == a + Front(b);
      AttestableConcat(a, Front(b));
    }
  }

  datatype Failure = SignatureRejected | NetworkFailure | OtherFailure

  /** How one attempt goes; `counter` is what the contract's nonce counter would read. */
  datatype Attempt =
    | CounterUnreadable(error: Failure)
    | FailsBeforeSending(error: Failure, counter: nat)
    | FailsAfterSending(error: Failure, counter: nat)
    | Confirmed(counter: nat)
    | ConfirmedOnLookup(counter: nat)  // waiting failed, but the receipt was found

  predicate Succeeds(a: Attempt) {
    a.Confirmed? || a.ConfirmedOnLookup?
  }

  /** An attempt beyond the script fails. */
  function AttemptAt(script: seq<Attempt>, k: nat): Attempt {
    if k < |script| then script[k] else CounterUnreadable(OtherFailure)
  }

  predicate SucceedsAt(script: seq<Attempt>, k: nat) {
    Succeeds(AttemptAt(script, k))
  }

  /** The first success within the allowed attempts, if there is one. */
  ghost predicate SucceedsWithin(script: seq<Attempt>, n: nat) {
    exists k :: 0 <= k < n && SucceedsAt(script, k)
  }

  ghost predicate NoCommits(log: seq<NonceEvent>, from: nat, to: nat)
    requires from <= to <= |log|
  {
    forall k :: from <= k < to ==> !log[k].Committed?
  }

  // ----- What retrying does to the nonces -----

  /** One more than the contract's counter, when it can be read. */
  function FreshNonce(a: Attempt): Option<nat> {
    if a.CounterUnreadable? then None else Some(a.counter + 1)
  }

  function NextNonce(known: Option<nat>, a: Attempt): Option<nat> {
    if known.Some? then Some(known.value + 1) else FreshNonce(a)
  }

  /** What reserving a nonce adds to the log; `known` is the last nonce known to be used, before it. */
  function ReservingEvents(user: string, known: Option<nat>, a: Attempt): seq<NonceEvent> {
    if known.Some? then [Reserved(user, known.value + 1)]
    else if a.CounterUnreadable? then []
    else [ChainRead(user, a.counter)] + [Reserved(user, a.counter + 1)]
  }

  /** What one attempt adds to the log. */
  function AttemptEvents(user: string, known: Option<nat>, a: Attempt): seq<NonceEvent> {
    if Succeeds(a) then ReservingEvents(user, known, a) + [Committed(user, NextNonce(known, a).value)]
    else ReservingEvents(user, known, a)
  }

  /** What the wrapper does about a failed attempt. */
  function HandlingEvents(user: string, a: Attempt): seq<NonceEvent> {
    if Succeeds(a) then []
    else match a.error
      case SignatureRejected => [Invalidated(user)]
      case NetworkFailure => [Refreshed]
      case OtherFailure => []
  }

  /** Reserving a nonce reads the counter when nothing is known. */
  function KnownAfterReserving(known: Option<nat>, a: Attempt): Option<nat> {
    if known.Some? || a.CounterUnreadable? then known else Some(a.counter)
  }

  function KnownAfterFailure(known: Option<nat>, a: Attempt): Option<nat>
    requires !Succeeds(a)
  {
    if a.error == SignatureRejected then None else KnownAfterReserving(known, a)
  }

  /** What is known before attempt `k`, all attempts before it having failed. */
  ghost function KnownBefore(known: Option<nat>, script: seq<Attempt>, k: nat): Option<nat>
    requires AllFail(script, k)
  {
    if k == 0 then known
    else
      assert !SucceedsAt(script, k - 1);
      KnownAfterFailure(KnownBefore(known, script, k - 1), AttemptAt(script, k - 1))
  }

  ghost predicate AllFail(script: seq<Attempt>, n: nat) {
    forall k :: 0 <= k < n ==> !SucceedsAt(script, k)
  }

  /** The whole trace of the first `n` attempts. */
  ghost function RetryEvents(user: string, known: Option<nat>, script: seq<Attempt>, n: nat): seq<NonceEvent>
    requires n > 0 ==> AllFail(script, n - 1)
  {
    if n == 0 then []
    else
      var a := AttemptAt(script, n - 1);
      RetryEvents(user, known, script, n - 1)
      + AttemptEvents(user, KnownBefore(known, script, n - 1), a) + HandlingEvents(user, a)
  }

  predicate Rejected(script: seq<Attempt>, k: nat) {
    var a := AttemptAt(script, k);
    !Succeeds(a) && a.error == SignatureRejected
  }

  predicate NetworkFailed(script: seq<Attempt>, k: nat) {
    var a := AttemptAt(script, k);
    !Succeeds(a) && a.error == NetworkFailure
  }

  /**
   * The nonce that attempt `k` has to sign with: that of the attempt before, as long as no attempt has succeeded;
   * after a rejected signature, or when there is none yet, one more than the contract's counter.
   */
  function NonceFor(known: Option<nat>, script: seq<Attempt>, k: nat): Option<nat> {
    var before := if k > 0 then NonceFor(known, script, k - 1) else if known.Some? then Some(known.value + 1) else None;
    if before.Some? && !(k > 0 && Rejected(script, k - 1)) then before else FreshNonce(AttemptAt(script, k))
  }

  function SigningWith(user: string, nonce: Option<nat>): seq<NonceEvent> {
    if nonce.Some? then [Reserved(user, nonce.value)] else []
  }

  function AnswerTo(user: string, script: seq<Attempt>, k: nat): seq<NonceEvent> {
    if Rejected(script, k) then [Invalidated(user)] else if NetworkFailed(script, k) then [Refreshed] else []
  }

  /** What the signings, invalidations and refreshes of the first `n` attempts have to be, in order. */
  function Story(user: string, known: Option<nat>, script: seq<Attempt>, n: nat): seq<NonceEvent> {
    if n == 0 then []
    else
      Story(user, known, script, n - 1)
      + SigningWith(user, NonceFor(known, script, n - 1)) + AnswerTo(user, script, n - 1)
  }

  /** The log without what was read from the chain and confirmed by it. */
  function OwnEvents(events: seq<NonceEvent>): seq<NonceEvent> {
    if events == [] then []
    else if Last(events).ChainRead? || Last(events).Committed? then OwnEvents(Front(events))
    else OwnEvents(Front(events)) + [Last(events)]
  }

  lemma {:induction false} OwnConcat(a: seq<NonceEvent>, b: seq<NonceEvent>)
    ensures OwnEvents(a + b) == OwnEvents(a) + OwnEvents(b)
  {
    if b == [] {
      assert a + b == a;
    } else {
      assert Front(a + b) == a + Front(b) && Last(a + b) == Last(b);
      OwnConcat(a, Front(b));
    }
  }

  lemma OwnOfOne(e: NonceEvent)
    ensures OwnEvents([e]) == if e.ChainRead? || e.Committed? then [] else [e]
  {
    assert Front([e]) == [];
  }

  /** While no attempt has succeeded, the nonce to sign with is one more than what is known, or has to be read. */
  lemma {:induction false} NonceForIsNext(known: Option<nat>, script: seq<Attempt>, k: nat)
    requires AllFail(script, k)
    ensures NonceFor(known, script, k) == NextNonce(KnownBefore(known, script, k), AttemptAt(script, k))
  {
    if k > 0 {
      assert !SucceedsAt(script, k - 1);
      NonceForIsNext(known, script, k - 1);
    }
  }

  lemma AttemptSigns(user: string, known: Option<nat>, a: Attempt)
    ensures OwnEvents(AttemptEvents(user, known, a)) == SigningWith(user, NextNonce(known, a))
  {
    if NextNonce(known, a).Some? {
      var nonce := NextNonce(known, a).value;
      OwnOfOne(Reserved(user, nonce));
      OwnOfOne(Committed(user, nonce));
      OwnConcat(ReservingEvents(user, known, a), [Committed(user, nonce)]);
      if known.None? {
        OwnOfOne(ChainRead(user, a.counter));
        OwnConcat([ChainRead(user, a.counter)], [Reserved(user, nonce)]);
      }
    }
  }

  lemma HandlingAnswers(user: string, script: seq<Attempt>, k: nat)
    ensures OwnEvents(HandlingEvents(user, AttemptAt(script, k))) == AnswerTo(user, script, k)
  {
    OwnOfOne(Invalidated(user));
    OwnOfOne(Refreshed);
  }

  /**
   * Every attempt signs with the nonce it has to; a rejected signature is followed by an invalidation before any
   * further signing and a network failure by a refresh, and nothing else is invalidated or refreshed.
   */
  lemma {:induction false} RetriesTellTheStory(user: string, known: Option<nat>, script: seq<Attempt>, n: nat)
    requires n > 0 ==> AllFail(script, n - 1)
    ensures OwnEvents(RetryEvents(user, known, script, n)) == Story(user, known, script, n)
  {
    if n > 0 {
      var before := KnownBefore(known, script, n - 1);
      var attempt := AttemptEvents(user, before, AttemptAt(script, n - 1));
      var handling := HandlingEvents(user, AttemptAt(script, n - 1));
      RetriesTellTheStory(user, known, script, n - 1);
      NonceForIsNext(known, script, n - 1);
      AttemptSigns(user, before, AttemptAt(script, n - 1));
      HandlingAnswers(user, script, n - 1);
      OwnConcat(RetryEvents(user, known, script, n - 1) + attempt, handling);
      OwnConcat(RetryEvents(user, known, script, n - 1), attempt);
    }
  }

  lemma Regroup<T>(a: seq<T>, b: seq<T>, c: seq<T>, d: seq<T>)
    ensures a + b + c == a + (b + c) && a + b + c + d == a + (b + c + d)
  {
  }

  /** Since position `from` there is one commit, by this user, at the end. */
  ghost predicate CommitsLast(log: seq<NonceEvent>, from: nat, user: string) {
    |log| > from && NoCommits(log, from, |log| - 1) && Last(log).Committed? && Last(log).user == user
  }

  /** `log` is `before` with the trace of the first `n` attempts, whose own events are the story of those attempts. */
  ghost predicate Told(before: seq<NonceEvent>, log: seq<NonceEvent>, user: string, script: seq<Attempt>, n: nat)
    requires n > 0 ==> AllFail(script, n - 1)
  {
    && before <= log && log == before + RetryEvents(user, Known(before, user), script, n)
    && OwnEvents(log[|before|..]) == Story(user, Known(before, user), script, n)
  }

  /** `log` is `before` with the trace of the first `k` attempts, all failed and none committed. */
  ghost predicate Failing(before: seq<NonceEvent>, log: seq<NonceEvent>, user: string, script: seq<Attempt>, k: nat) {
    && AllFail(script, k) && Told(before, log, user, script, k)
    && Known(log, user) == KnownBefore(Known(before, user), script, k)
    && NoCommits(log, |before|, |log|)
  }

  lemma TraceIsTheStory(before: seq<NonceEvent>, log: seq<NonceEvent>, user: string, script: seq<Attempt>, n: nat)
    requires n > 0 ==> AllFail(script, n - 1)
    requires log == before + RetryEvents(user, Known(before, user), script, n)
    ensures Told(before, log, user, script, n)
  {
    RetriesTellTheStory(user, Known(before, user), script, n);
    assert log[|before|..] == RetryEvents(user, Known(before, user), script, n);
  }

  lemma NothingTried(log: seq<NonceEvent>, user: string, script: seq<Attempt>)
    ensures Failing(log, log, user, script, 0)
  {
  }

  lemma ReservedAfterReading(before: seq<NonceEvent>, log: seq<NonceEvent>, user: string, a: Attempt, nonce: nat)
    requires var known := Known(before, user);
             if known.Some? then nonce == known.value + 1 && log == before + [Reserved(user, nonce)]
             else && !a.CounterUnreadable? && nonce == a.counter + 1
                  && log == before + [ChainRead(user, a.counter)] + [Reserved(user, nonce)]
    ensures log == before + ReservingEvents(user, Known(before, user), a)
  {
  }

  /** A failed attempt commits nothing, a successful one last. */
  lemma AttemptCommitsLast(log: seq<NonceEvent>, user: string, known: Option<nat>, a: Attempt, from: nat)
    requires from <= |log| && NoCommits(log, from, |log|)
    ensures var log' := log + (AttemptEvents(user, known, a) + HandlingEvents(user, a));
            if Succeeds(a) then CommitsLast(log', from, user) else NoCommits(log', from, |log'|)
  {
    var added := AttemptEvents(user, known, a) + HandlingEvents(user, a);
    var log' := log + added;
    forall k | from <= k < |log'|
      ensures log'[k] == if k < |log| then log[k] else added[k - |log|]
    {
    }
    if Succeeds(a) {
      assert added == ReservingEvents(user, known, a) + [Committed(user, NextNonce(known, a).value)];
    }
  }

  /** The trace grows by one attempt, which commits last if it succeeds. */
  lemma OneMoreAttempt(before: seq<NonceEvent>, log: seq<NonceEvent>, log': seq<NonceEvent>, user: string,
                       script: seq<Attempt>, k: nat)
    requires Failing(before, log, user, script, k)
    requires var a := AttemptAt(script, k);
             && log' == log + AttemptEvents(user, Known(log, user), a) + HandlingEvents(user, a)
             && (!Succeeds(a) ==> Known(log', user) == KnownAfterFailure(Known(log, user), a))
    ensures AllFail(script, k) && Told(before, log', user, script, k + 1)
    ensures if SucceedsAt(script, k) then CommitsLast(log', |before|, user)
            else Failing(before, log', user, script, k + 1)
  {
    var a, earlier := AttemptAt(script, k), RetryEvents(user, Known(before, user), script, k);
    var attempt := AttemptEvents(user, Known(log, user), a);
    Regroup(before, earlier, attempt, HandlingEvents(user, a));
    Regroup(log, attempt, HandlingEvents(user, a), []);
    AttemptCommitsLast(log, user, Known(log, user), a, |before|);
    TraceIsTheStory(before, log', user, script, k + 1);
    assert !Succeeds(a) ==> !SucceedsAt(script, k);
  }

  class EnergyOracleOperator {
    const maxRetries: nat
    var nonceCache: map<string, nat>
    var pendingNonces: map<string, nat>
    ghost var log: seq<NonceEvent>

    ghost predicate Valid()
      reads this
    {
      && maxRetries >= 1
      && Consistent(log)
      && (forall u :: Known(log, u) == if u in nonceCache then Some(nonceCache[u]) else None)
      && (forall u :: u in pendingNonces ==> u in nonceCache && pendingNonces[u] == nonceCache[u] + 1)
    }

    constructor (maxRetries: nat)
      requires maxRetries >= 1
      ensures Valid() && log == [] && this.maxRetries == maxRetries
    {
      this.maxRetries := maxRetries;
      nonceCache, pendingNonces, log := map[], map[], [];
    }

    /** Adds an event that the fields already reflect. */
    ghost method Note(e: NonceEvent)
      requires Consistent(log) && Follows(log, e)
      modifies `log
      ensures log == old(log) + [e] && Consistent(log)
      ensures forall u :: Known(log, u) ==
                if e.Refreshed? || e.Reserved? || e.user != u then Known(old(log), u)
                else if e.Invalidated? then None else Some(e.nonce)
    {
      ConsistentAppend(log, e);
      forall u { KnownAfter(log, e, u); }
      log := log + [e];
    }

    /** A pending nonce is reused; otherwise the next one is reserved, after reading the counter if need be. */
    method ReserveNonce(user: string, attempt: Attempt) returns (nonce: Option<nat>)
      requires Valid()
      modifies this
      ensures Valid() && nonce == NextNonce(Known(old(log), user), attempt)
      ensures nonce.Some? ==> user in nonceCache && nonce.value == nonceCache[user] + 1
      ensures nonce.Some? ==> user in pendingNonces && pendingNonces[user] == nonce.value
      ensures Known(log, user) == KnownAfterReserving(Known(old(log), user), attempt)
      ensures log == old(log) + ReservingEvents(user, Known(old(log), user), attempt)
    {
      if user in pendingNonces {
        Note(Reserved(user, pendingNonces[user]));
        return Some(pendingNonces[user]);
      }
      var readable := ReadCounter(user, attempt);
      if !readable {
        return None;
      }
      var next := ReserveNext(user);
      ReservedAfterReading(old(log), log, user, attempt, next);
      return Some(next);
    }

    /** Reads the contract's counter unless a nonce is cached. */
    method ReadCounter(user: string, attempt: Attempt) returns (readable: bool)
      requires Valid()
      modifies this
      ensures Valid() && (readable <==> user in nonceCache) && pendingNonces == old(pendingNonces)
      ensures user in old(nonceCache) ==> nonceCache == old(nonceCache) && log == old(log)
      ensures user !in old(nonceCache) ==>
                if attempt.CounterUnreadable? then nonceCache == old(nonceCache) && log == old(log)
                else nonceCache == old(nonceCache)[user := attempt.counter]
                     && log == old(log) + [ChainRead(user, attempt.counter)]
    {
      if user !in nonceCache {
        if attempt.CounterUnreadable? {
          return false;
        }
        Note(ChainRead(user, attempt.counter));
        nonceCache := nonceCache[user := attempt.counter];
      }
      return true;
    }

    method ReserveNext(user: string) returns (next: nat)
      requires Valid() && user in nonceCache
      modifies this
      ensures Valid() && nonceCache == old(nonceCache) && next == nonceCache[user] + 1
      ensures pendingNonces == old(pendingNonces)[user := next]
      ensures log == old(log) + [Reserved(user, next)] && Known(log, user) == Known(old(log), user)
    {
      next := nonceCache[user] + 1;
      Note(Reserved(user, next));
      pendingNonces := pendingNonces[user := next];
    }

    method CommitNonce(user: string, nonce: nat)
      requires Valid() && user in nonceCache && nonce == nonceCache[user] + 1
      modifies this
      ensures Valid() && log == old(log) + [Committed(user, nonce)]
      ensures nonceCache == old(nonceCache)[user := nonce] && pendingNonces == old(pendingNonces) - {user}
    {
      Note(Committed(user, nonce));
      nonceCache := nonceCache[user := nonce];
      pendingNonces := pendingNonces - {user};
    }

    method InvalidateNonce(user: string)
      requires Valid()
      modifies this
      ensures Valid() && log == old(log) + [Invalidated(user)]
      ensures nonceCache == old(nonceCache) - {user} && pendingNonces == old(pendingNonces) - {user}
    {
      Note(Invalidated(user));
      pendingNonces := pendingNonces - {user};
      nonceCache := nonceCache - {user};
    }

    method Refresh()
      requires Valid()
      modifies this
      ensures Valid() && log == old(log) + [Refreshed] && nonceCache == old(nonceCache) && pendingNonces == map[]
    {
      Note(Refreshed);
      pendingNonces := map[];
    }

    method SubmitAttestation(user: string, attempt: Attempt) returns (error: Option<Failure>)
      requires Valid()
      modifies this
      ensures Valid() && error == if Succeeds(attempt) then None else Some(attempt.error)
      ensures log == old(log) + AttemptEvents(user, Known(old(log), user), attempt)
      ensures error.Some? ==> Known(log, user) == KnownAfterReserving(Known(old(log), user), attempt)
    {
      ghost var known := Known(log, user);
      var nonce := ReserveNonce(user, attempt);
      if nonce.None? || !Succeeds(attempt) {
        return Some(attempt.error);
      }
      CommitNonce(user, nonce.value);
      Regroup(old(log), ReservingEvents(user, known, attempt), [Committed(user, nonce.value)], []);
      return None;
    }

    /** One attempt; a rejected signature drops the nonces, a network failure the connection. */
    method TryOnce(user: string, attempt: Attempt) returns (done: bool)
      requires Valid()
      modifies this
      ensures Valid() && (done <==> Succeeds(attempt))
      ensures log == old(log) + AttemptEvents(user, Known(old(log), user), attempt) + HandlingEvents(user, attempt)
      ensures !done ==> Known(log, user) == KnownAfterFailure(Known(old(log), user), attempt)
    {
      var error := SubmitAttestation(user, attempt);
      if error == Some(SignatureRejected) {
        InvalidateNonce(user);
      } else if error == Some(NetworkFailure) {
        Refresh();
      }
      return error.None?;
    }

    /** Stops at the first success. */
    method SubmitWithRetry(user: string, script: seq<Attempt>) returns (acked: bool, attempts: nat)
      requires Valid()
      modifies this
      ensures Valid() && 1 <= attempts <= maxRetries
      ensures AllFail(script, attempts - 1) && Told(old(log), log, user, script, attempts)
      ensures acked <==> SucceedsWithin(script, maxRetries)
      ensures acked ==> SucceedsAt(script, attempts - 1)
      ensures !acked ==> attempts == maxRetries && NoCommits(log, |old(log)|, |log|)
      ensures acked ==> CommitsLast(log, |old(log)|, user)
    {
      attempts := 0;
      NothingTried(log, user, script);
      while attempts < maxRetries
        invariant Valid() && attempts <= maxRetries && Failing(old(log), log, user, script, attempts)
      {
        ghost var before := log;
        var done := TryOnce(user, AttemptAt(script, attempts));
        OneMoreAttempt(old(log), before, log, user, script, attempts);
        assert done == SucceedsAt(script, attempts);
        attempts := attempts + 1;
        if done {
          return true, attempts;
        }
      }
      return false, attempts;
    }

    /** One round of the submission loop. */
    method SubmitSample(sample: Sample, script: seq<Attempt>) returns (handled: bool)
      requires Valid()
      modifies this
      ensures Valid() && old(log) <= log
      ensures sample.user.None? || sample.jobId.None? ==> handled && log == old(log)
      ensures sample.user.Some? && sample.jobId.Some? ==> (handled <==> SucceedsWithin(script, maxRetries))
      ensures handled <==> !Attestable(sample) || SucceedsWithin(script, maxRetries)
      ensures !handled ==> NoCommits(log, |old(log)|, |log|)
      ensures Attestable(sample) && handled ==> CommitsLast(log, |old(log)|, Lower(sample.user.value))
    {
      if sample.user.None? || sample.jobId.None? {
        return true;
      }
      var acked, _ := SubmitWithRetry(Lower(sample.user.value), script);
      return acked;
    }

    /** Acknowledges a prefix: it ends where an attestable sample used up its attempts. */
    method Submit(samples: seq<Sample>, scripts: seq<seq<Attempt>>) returns (processed: nat, success: bool)
      requires Valid()
      modifies this
      ensures Valid() && old(log) <= log
      ensures processed <= |samples| && (success <==> processed == |samples|)
      ensures forall i :: 0 <= i < processed ==>
                samples[i].user.None? || samples[i].jobId.None?
                || SucceedsWithin(ScriptAt(scripts, i), maxRetries)
      ensures !success ==>
                && samples[processed].user.Some? && samples[processed].jobId.Some?
                && !SucceedsWithin(ScriptAt(scripts, processed), maxRetries)
    {
      processed := 0;
      while processed < |samples|
        invariant Valid() && old(log) <= log && processed <= |samples|
        invariant forall i :: 0 <= i < processed ==>
                    samples[i].user.None? || samples[i].jobId.None?
                    || SucceedsWithin(ScriptAt(scripts, i), maxRetries)
      {
        var handled := SubmitSample(samples[processed], ScriptAt(scripts, processed));
        if !handled {
          return processed, false;
        }
        processed := processed + 1;
      }
      return processed, true;
    }
  }

  function ScriptAt(scripts: seq<seq<Attempt>>, i: nat): seq<Attempt> {
    if i < |scripts| then scripts[i] else []
  }
}
