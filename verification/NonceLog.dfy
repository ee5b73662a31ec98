/**
 * What a run of the energy oracle operator may do with nonces, told as a log of its nonce events,
 * and what every such log has in common (agent-gateway/operator.ts).
 */
module NonceLog {
  import opened Collections

  datatype NonceEvent =
    | ChainRead(user: string, nonce: nat)   // the contract's counter was read
    | Reserved(user: string, nonce: nat)    // an attempt signs with this nonce
    | Committed(user: string, nonce: nat)   // a submission with this nonce was confirmed
    | Invalidated(user: string)             // the cached and the pending nonce were dropped
    | Refreshed                             // a new connection; every pending nonce was dropped

  /** The last nonce known to be used by a user, if one is known at all. */
  function Known(log: seq<NonceEvent>, user: string): Option<nat> {
    if log == [] then None
    else
      var last := Last(log);
      if last.Refreshed? || last.user != user then Known(Front(log), user)
      else
        match last
        case ChainRead(_, n) => Some(n)
        case Committed(_, n) => Some(n)
        case Invalidated(_) => None
        case Reserved(_, _) => Known(Front(log), user)
  }

  /** Every event follows from what was known before it. */
  ghost predicate Consistent(log: seq<NonceEvent>) {
    log == [] || (Consistent(Front(log)) && Follows(Front(log), Last(log)))
  }

  ghost predicate Follows(before: seq<NonceEvent>, e: NonceEvent) {
    match e
    case ChainRead(u, _) => Known(before, u) == None
    case Reserved(u, n) => n > 0 && Known(before, u) == Some(n - 1)
    case Committed(u, n) => n > 0 && Known(before, u) == Some(n - 1)
    case _ => true
  }

  lemma {:induction false} EventFits(log: seq<NonceEvent>, i: nat)
    requires Consistent(log) && i < |log|
    ensures Follows(log[..i], log[i])
  {
    if i < |log| - 1 {
      EventFits(Front(log), i);
      assert Front(log)[..i] == log[..i];
    }
  }

  lemma ConsistentAppend(log: seq<NonceEvent>, e: NonceEvent)
    requires Consistent(log) && Follows(log, e)
    ensures Consistent(log + [e])
  {
    assert Front(log + [e]) == log;
  }

  lemma KnownAfter(log: seq<NonceEvent>, e: NonceEvent, user: string)
    ensures Known(log + [e], user) ==
            if e.Refreshed? || e.Reserved? || e.user != user then Known(log, user)
            else if e.Invalidated? then None else Some(e.nonce)
  {
    assert Front(log + [e]) == log;
  }

  /** Neither a commit nor an invalidation of this user at positions `i` to `j - 1`. */
  ghost predicate Quiet(log: seq<NonceEvent>, user: string, i: nat, j: nat)
    requires i <= j <= |log|
  {
    forall k :: i <= k < j ==>
      !(log[k].Committed? && log[k].user == user) && !(log[k].Invalidated? && log[k].user == user)
  }

  /** Without a commit or an invalidation, what is known of a user does not change. */
  lemma {:induction false} KnownStays(log: seq<NonceEvent>, user: string, i: nat, j: nat)
    requires Consistent(log) && i <= j <= |log| && Quiet(log, user, i, j) && Known(log[..i], user).Some?
    ensures Known(log[..j], user) == Known(log[..i], user)
  {
    if i < j {
      KnownStays(log, user, i, j - 1);
      assert log[..j] == log[..j - 1] + [log[j - 1]];
      KnownAfter(log[..j - 1], log[j - 1], user);
      EventFits(log, j - 1);
    }
  }

  /** Every retry signs with the same nonce, whatever refreshes and other users' events lie between. */
  lemma RetriesReuseTheNonce(log: seq<NonceEvent>, user: string, i: nat, j: nat)
    requires Consistent(log) && i <= j < |log| && Quiet(log, user, i, j)
    requires log[i].Reserved? && log[i].user == user && log[j].Reserved? && log[j].user == user
    ensures log[j].nonce == log[i].nonce
  {
    EventFits(log, i);
    EventFits(log, j);
    KnownStays(log, user, i, j);
  }

  /** Successive commits of a user with no invalidation between carry consecutive nonces. */
  lemma CommitsAreConsecutive(log: seq<NonceEvent>, user: string, i: nat, j: nat)
    requires Consistent(log) && i < j < |log| && Quiet(log, user, i + 1, j)
    requires log[i].Committed? && log[i].user == user && log[j].Committed? && log[j].user == user
    ensures log[j].nonce == log[i].nonce + 1
  {
    assert log[..i + 1] == log[..i] + [log[i]];
    KnownAfter(log[..i], log[i], user);
    KnownStays(log, user, i + 1, j);
    EventFits(log, j);
  }

  /** The chain's counter is never behind a confirmed submission. */
  ghost predicate ChainKeepsUp(log: seq<NonceEvent>) {
    forall i, j :: 0 <= i < j < |log| && log[i].Committed? && log[j].ChainRead? && log[j].user == log[i].user ==>
      log[i].nonce <= log[j].nonce
  }

  lemma {:induction false} KnownKeepsUp(log: seq<NonceEvent>, user: string, i: nat, j: nat)
    requires Consistent(log) && ChainKeepsUp(log) && i < j <= |log| && log[i].Committed? && log[i].user == user
    ensures Known(log[..j], user).Some? ==> Known(log[..j], user).value >= log[i].nonce
  {
    assert log[..j] == log[..j - 1] + [log[j - 1]];
    KnownAfter(log[..j - 1], log[j - 1], user);
    if i < j - 1 {
      KnownKeepsUp(log, user, i, j - 1);
      EventFits(log, j - 1);
    }
  }

  /** Over a whole run, invalidations included, a user's committed nonces strictly increase. */
  lemma CommitsIncrease(log: seq<NonceEvent>, user: string, i: nat, j: nat)
    requires Consistent(log) && ChainKeepsUp(log) && i < j < |log|
    requires log[i].Committed? && log[i].user == user && log[j].Committed? && log[j].user == user
    ensures log[i].nonce < log[j].nonce
  {
    KnownKeepsUp(log, user, i, j);
    EventFits(log, j);
  }
}
