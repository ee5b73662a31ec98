/**
 * The handlers of commit and reveal as they update the gateway's maps, between two suspensions
 * each (agent-gateway/validator.ts, agent-gateway/utils.ts, agent-gateway/validationStore.ts).
 * Each keeps every vote it remembers opening the chain's commitment, and is one step of the
 * transition system in module CommitReveal.
 */
module ValidatorGateway {
  import opened Collections
  import opened ValidationStore
  import opened CommitReveal

  /** What the revealing endpoint would send after a crash, when only the store is left. */
  function VoteAfterCrash(store: map<Key, Record>, key: Key): Option<Vote> {
    HelperVote(Node(store, map[], map[]), key, None, None)
  }

  ghost predicate SameVotes(store: map<Key, Record>, store': map<Key, Record>) {
    store'.Keys == store.Keys && forall k :: k in store ==> store'[k].vote == store[k].vote
  }

  /** A vote that was persisted is what the endpoint finds after a crash. */
  lemma PersistedVoteSurvives(hash: Hash, chain: map<Key, string>, n: Node, key: Key, vote: Vote, tx: string)
    requires NodeGood(hash, chain, n) && Good(hash, chain, key, vote) && hash(key.job, vote) != ""
    ensures VoteAfterCrash(Persisted(n, key, vote, hash(key.job, vote), tx).store, key) == Some(vote)
  {
    NormalisedIsCanonical(vote.salt);
  }

  /** The validator's own path records the same, and its assignment follows. */
  lemma RecordedCommitFits(hash: Hash, chain: map<Key, string>, n: Node, key: Key, id: nat, vote: Vote, tx: string)
    requires NodeGood(hash, chain, n) && Good(hash, chain, key, vote) && hash(key.job, vote) != ""
    ensures var n' := CommitRecorded(n, key, id, vote, hash(key.job, vote), tx);
            && NodeGood(hash, chain, n')
            && VoteAfterCrash(n'.store, key) == Some(vote)
            && (key in n.assignments && n.assignments[key].id == id ==>
                  ValidatorVote(n', key) == Some(vote) && forall retries :: !MayCommit(n'.assignments[key], retries))
  {
    PersistedVoteSurvives(hash, chain, n, key, vote, tx);
    VoteWrites(hash, chain, n, key, vote, tx);
  }

  /** Without overrides the endpoint has a vote exactly when one is remembered or stored. */
  lemma EndpointVote(hash: Hash, chain: map<Key, string>, n: Node, key: Key)
    requires NodeGood(hash, chain, n)
    ensures HelperVote(n, key, None, None) ==
            if key in n.commits then Some(n.commits[key]) else if key in n.store then Some(n.store[key].vote) else None
  {
    if key in n.commits {
      assert Good(hash, chain, key, n.commits[key]);
      NormalisedIsCanonical(n.commits[key].salt);
    } else if key in n.store {
      assert Good(hash, chain, key, n.store[key].vote);
      NormalisedIsCanonical(n.store[key].vote.salt);
    }
  }

  class Gateway {
    var store: map<Key, Record>
    var commits: map<Key, Vote>
    var assignments: map<Key, Assignment>
    ghost const hash: Hash
    ghost var chain: map<Key, string>  // the commitments that the chain holds

    ghost function View(): Node
      reads this
    {
      Node(store, commits, assignments)
    }

    ghost predicate Valid()
      reads this
    {
      NodeGood(hash, chain, View())
    }

    /** A new process: memory is empty, the store is what the last process left. */
    constructor (store: map<Key, Record>, ghost hash: Hash, ghost chain: map<Key, string>)
      requires NodeGood(hash, chain, Node(store, map[], map[]))
      ensures Valid() && View() == Node(store, map[], map[]) && this.hash == hash && this.chain == chain
    {
      this.store, commits, assignments, this.hash, this.chain := store, map[], map[], hash, chain;
    }

    /** The chain takes the first commitment for a job and validator and refuses any other. */
    ghost method MineCommitment(key: Key, vote: Vote)
      requires Valid()
      modifies `chain
      ensures Valid() && (key !in old(chain) ==> Opens(hash, chain, key, vote))
      ensures forall k :: k in old(chain) ==> k in chain && chain[k] == old(chain)[k]
    {
      if key !in chain {
        chain := chain[key := hash(key.job, vote)];
      }
    }

    method UpdateCommitRecord(key: Key, update: Update) returns (record: Option<Record>)
      modifies `store
      ensures record == Updated(old(store), key, update)
      ensures store == Written(old(store), key, update)
    {
      if key !in store {
        if update.approve.None? || !NonEmpty(update.salt) || !NonEmpty(update.commitHash) {
          return None;
        }
        var base := Record(Vote(update.approve.value, update.salt.value), update.commitHash.value, None, None, None,
                           map[]);
        record := Some(MergeRecords(base, update));
      } else {
        record := Some(MergeRecords(store[key], update));
      }
      store := store[key := record.value];
    }

    /** From here on the endpoint answers with this vote. */
    method RememberCommit(key: Key, vote: Vote)
      requires Valid() && Good(hash, chain, key, vote)
      modifies `commits
      ensures Valid() && View() == Remembered(old(View()), key, vote)
      ensures HelperVote(View(), key, None, None) == Some(vote)
    {
      commits := commits[key := vote];
      EndpointVote(hash, chain, View(), key);
    }

    /** From here on the vote survives a crash, and no other stored vote has changed. */
    method PersistCommit(key: Key, vote: Vote, commitHash: string, tx: string)
      requires Valid() && Good(hash, chain, key, vote) && commitHash == hash(key.job, vote) != ""
      modifies `store
      ensures Valid() && View() == Persisted(old(View()), key, vote, commitHash, tx)
      ensures VoteAfterCrash(store, key) == Some(vote)
      ensures forall k :: k != key ==> VoteAfterCrash(store, k) == VoteAfterCrash(old(store), k)
    {
      PersistedVoteSurvives(hash, chain, View(), key, vote, tx);
      VoteWrites(hash, chain, View(), key, vote, tx);
      var _ := UpdateCommitRecord(key, CommitUpdate(vote, commitHash, tx));
    }

    /**
     * The synchronous part of revealHelper, up to sending the transaction.  Without overrides the vote opens the
     * chain's commitment, and there is one exactly when one is remembered or stored.
     */
    method LookUpVote(key: Key, approveOverride: Option<bool>, saltOverride: Option<string>)
      returns (vote: Option<Vote>)
      requires Valid()
      modifies `commits
      ensures Valid() && View() == HelperLookup(old(View()), key)
      ensures vote == HelperVote(old(View()), key, approveOverride, saltOverride)
      ensures commits == if key !in old(commits) && key in store then old(commits)[key := store[key].vote]
                         else old(commits)
      ensures approveOverride.None? && saltOverride.None? ==>
                && (vote.Some? <==> key in old(commits) || key in store)
                && (vote.Some? ==> Opens(hash, chain, key, vote.value) && commits == old(commits)[key := vote.value])
    {
      EndpointVote(hash, chain, View(), key);
      var data: Option<Vote> := None;
      if key in commits {
        data := Some(commits[key]);
      } else if key in store {
        data := Some(store[key].vote);
        commits := commits[key := data.value];
      }
      var approve := if approveOverride.Some? then approveOverride else if data.Some? then Some(data.value.approve)
                     else None;
      var salt := if saltOverride.Some? then saltOverride else if data.Some? then Some(data.value.salt) else None;
      if approve.None? || !NonEmpty(salt) {
        return None;
      }
      var canonical := NormaliseSalt(salt.value);
      if canonical.None? {
        return None;
      }
      return Some(Vote(approve.value, canonical.value));
    }

    /** Memory forgets the vote and the store keeps it, marked as revealed. */
    method ConfirmHelperReveal(key: Key, tx: string)
      requires Valid()
      modifies `commits, `store
      ensures Valid() && View() == HelperRevealed(old(View()), key, tx)
      ensures key !in commits && SameVotes(old(store), store)
      ensures key in store && tx != "" ==> store[key].revealTx == Some(tx)
    {
      OtherWrites(hash, chain, View(), key, RevealUpdate(tx));
      OnlyVotesChangeVotes(store, key, RevealUpdate(tx));
      commits := commits - {key};
      var _ := UpdateCommitRecord(key, RevealUpdate(tx));
    }

    /** A known assignment stays; a new one takes over the stored vote, and then never commits again. */
    method SelectValidator(key: Key, id: nat)
      requires Valid()
      modifies `assignments
      ensures Valid() && View() == Select(old(View()), key, id)
      ensures key in assignments && (key in old(assignments) ==> assignments == old(assignments))
      ensures key !in old(assignments) && key in store ==>
                && assignments[key].commit == Some(store[key].vote)
                && assignments[key].status == (if NonEmpty(store[key].revealTx) then Revealed else Committed)
                && forall retries :: !MayCommit(assignments[key], retries)
      ensures key !in old(assignments) && key !in store ==>
                assignments[key].commit == None && assignments[key].status == Selected
      ensures key !in old(assignments) ==>
                var a := assignments[key];
                assignments == old(assignments)[key := a] && a.id == id && a.attempts == 0 && !a.processing
    {
      if key in assignments {
        return;
      }
      var assignment := Assignment(id, Selected, 0, false, None);
      if key in store {
        assignment := assignment.(commit := Some(store[key].vote));
        if NonEmpty(store[key].revealTx) {
          assignment := assignment.(status := Revealed);
        } else {
          assignment := assignment.(status := Committed);
        }
      }
      assignments := assignments[key := assignment];
    }

    /** The guards of evaluateAndCommit; a committed or revealed assignment never commits again. */
    method BeginCommit(key: Key, maxRetries: nat) returns (began: bool)
      requires Valid()
      modifies `assignments
      ensures Valid()
      ensures began <==>
                && key in old(assignments)
                && var a := old(assignments)[key];
                   !a.processing && a.status !in {Committed, Revealed} && a.attempts < maxRetries
      ensures View() == if began then Began(old(View()), key) else old(View())
      ensures began ==>
                var a := old(assignments)[key];
                assignments == old(assignments)[key := Assignment(a.id, Evaluating, a.attempts + 1, true, a.commit)]
    {
      if key !in assignments || assignments[key].processing {
        return false;
      }
      var a := assignments[key];
      if a.status == Committed || a.status == Revealed || a.attempts >= maxRetries {
        return false;
      }
      assignments := assignments[key := a.(processing := true, attempts := a.attempts + 1, status := Evaluating)];
      return true;
    }

    /** The vote survives a crash from here on; an assignment still attached will reveal it and never commits again. */
    method FinishCommit(key: Key, id: nat, vote: Vote, commitHash: string, tx: string)
      requires Valid() && Good(hash, chain, key, vote) && commitHash == hash(key.job, vote) != ""
      modifies `assignments, `store
      ensures Valid() && View() == CommitRecorded(old(View()), key, id, vote, commitHash, tx)
      ensures VoteAfterCrash(store, key) == Some(vote)
      ensures key in old(assignments) && old(assignments)[key].id == id ==>
                ValidatorVote(View(), key) == Some(vote) && forall retries :: !MayCommit(assignments[key], retries)
    {
      RecordedCommitFits(hash, chain, View(), key, id, vote, tx);
      if key in assignments && assignments[key].id == id {
        assignments := assignments[key := assignments[key].(processing := false, status := Committed,
                                                            commit := Some(vote))];
      }
      var _ := UpdateCommitRecord(key, CommitUpdate(vote, commitHash, tx));
    }

    /** A failed commit leaves its assignment idle, with the attempts it has used, and touches nothing else. */
    method FailCommit(key: Key, id: nat)
      requires Valid()
      modifies `assignments
      ensures Valid() && View() == CommitFailed(old(View()), key, id)
      ensures key in old(assignments) && old(assignments)[key].id == id ==>
                var a := old(assignments)[key];
                assignments == old(assignments)[key := Assignment(id, Failed, a.attempts, false, a.commit)]
      ensures !(key in old(assignments) && old(assignments)[key].id == id) ==> assignments == old(assignments)
    {
      if key in assignments && assignments[key].id == id {
        assignments := assignments[key := assignments[key].(processing := false, status := Failed)];
      }
    }

    /**
     * The synchronous part of revealValidation, up to sending the transaction.  The vote opens the chain's commitment;
     * there is none exactly when the assignment is gone, revealed, or has no vote in memory or in the store.
     */
    method RevealValidation(key: Key) returns (vote: Option<Vote>)
      requires Valid()
      modifies `assignments
      ensures Valid() && vote == ValidatorVote(old(View()), key) && View() == ValidatorLookup(old(View()), key)
      ensures vote.Some? ==> Opens(hash, chain, key, vote.value)
      ensures vote.Some? <==> key in old(assignments) && old(assignments)[key].status != Revealed
                              && (old(assignments)[key].commit.Some? || key in store)
      ensures vote.Some? ==>
                var a := old(assignments)[key];
                && vote == (if a.commit.Some? then a.commit else Some(store[key].vote))
                && assignments == old(assignments)[key := Assignment(a.id, a.status, a.attempts, a.processing, vote)]
      ensures vote.None? ==> assignments == old(assignments)
    {
      if key !in assignments || assignments[key].status == Revealed {
        return None;
      }
      vote := assignments[key].commit;
      if vote.None? && key in store {
        vote := Some(store[key].vote);
      }
      assignments := assignments[key := assignments[key].(commit := vote)];
    }

    /** An assignment still attached is not revealed a second time. */
    method ConfirmReveal(key: Key, id: nat, tx: string)
      requires Valid()
      modifies `assignments, `store
      ensures Valid() && View() == ValidatorRevealed(old(View()), key, id, tx)
      ensures SameVotes(old(store), store)
      ensures key in old(assignments) && old(assignments)[key].id == id ==> ValidatorVote(View(), key).None?
    {
      OtherWrites(hash, chain, View(), key, RevealUpdate(tx));
      OnlyVotesChangeVotes(store, key, RevealUpdate(tx));
      if key in assignments && assignments[key].id == id {
        assignments := assignments[key := assignments[key].(status := Revealed)];
      }
      var _ := UpdateCommitRecord(key, RevealUpdate(tx));
    }

    /** handleJobCompletionForValidators, for one validator of the job: no vote is lost with the assignment. */
    method DetachAssignment(key: Key, metadata: map<string, string>)
      requires Valid()
      modifies `assignments, `store
      ensures Valid() && View() == Detached(old(View()), key, metadata)
      ensures assignments == old(assignments) - {key} && SameVotes(old(store), store)
      ensures key in old(assignments) && key in store ==>
                forall k :: k in metadata ==> k in store[key].metadata && store[key].metadata[k] == metadata[k]
    {
      if key in assignments {
        OtherWrites(hash, chain, View(), key, NO_UPDATE.(metadata := Some(metadata)));
        OnlyVotesChangeVotes(store, key, NO_UPDATE.(metadata := Some(metadata)));
        var _ := UpdateCommitRecord(key, NO_UPDATE.(metadata := Some(metadata)));
        assignments := assignments - {key};
      }
    }

    /** Forgets one job's votes: the endpoint answers as before for other jobs and for every stored vote. */
    method CleanupJob(job: string)
      requires Valid()
      modifies `commits
      ensures Valid() && View() == CleanedUp(old(View()), job)
      ensures forall k :: k in commits <==> k in old(commits) && k.job != job
      ensures forall k: Key :: k.job != job || (CollisionFree(hash) && k in store) ==>
                HelperVote(View(), k, None, None) == HelperVote(old(View()), k, None, None)
    {
      ghost var before := View();
      commits := map k | k in commits && k.job != job :: commits[k];
      forall k: Key | k.job != job || (CollisionFree(hash) && k in store)
        ensures HelperVote(View(), k, None, None) == HelperVote(before, k, None, None)
      {
        EndpointVote(hash, chain, before, k);
        EndpointVote(hash, chain, View(), k);
        if k in store && k in before.commits {
          assert Good(hash, chain, k, store[k].vote) && Good(hash, chain, k, before.commits[k]);
        }
      }
    }

    /** A dispute touches no vote. */
    method RecordDispute(key: Key, dispute: Change)
      requires Valid()
      modifies `store
      ensures Valid() && View() == Disputed(old(View()), key, dispute) && SameVotes(old(store), store)
      ensures key in store && dispute.Set? ==> store[key].dispute == Some(dispute.value)
      ensures key in store && dispute.Clear? ==> store[key].dispute == None
      ensures key in store && dispute.Keep? ==> store[key].dispute == old(store)[key].dispute
      ensures forall k :: k in store && k != key ==> store[k] == old(store)[k]
    {
      if key in store {
        OtherWrites(hash, chain, View(), key, NO_UPDATE.(dispute := dispute));
        OnlyVotesChangeVotes(store, key, NO_UPDATE.(dispute := dispute));
        var _ := UpdateCommitRecord(key, NO_UPDATE.(dispute := dispute));
      }
    }
  }
}
