/**
 * Validator commit and reveal with its persistent store (agent-gateway/validator.ts and
 * agent-gateway/utils.ts).  Two code paths commit and two reveal; the process may crash between
 * any two of their steps and is rebuilt from the store.  The hash is any function of the job (and
 * with it the job's nonce) and the vote; the chain keeps the first commitment per job and validator.
 */
module CommitReveal {
  import opened Collections
  import opened ValidationStore

  datatype Status = Selected | Evaluating | Committed | Revealed | Failed

  datatype Assignment = Assignment(id: nat, status: Status, attempts: nat, processing: bool, commit: Option<Vote>)

  /** `commits` and `assignments` are memory, `store` survives a crash. */
  datatype Node = Node(store: map<Key, Record>, commits: map<Key, Vote>, assignments: map<Key, Assignment>)

  // ----- What the handlers do to the node -----

  function CommitUpdate(vote: Vote, hash: string, tx: string): Update {
    NO_UPDATE.(approve := Some(vote.approve), salt := Some(vote.salt), commitHash := Some(hash), commitTx := Some(tx))
  }

  function RevealUpdate(tx: string): Update {
    NO_UPDATE.(revealTx := Some(tx))
  }

  function Remembered(n: Node, key: Key, vote: Vote): Node {
    n.(commits := n.commits[key := vote])
  }

  function Persisted(n: Node, key: Key, vote: Vote, hash: string, tx: string): Node {
    n.(store := Written(n.store, key, CommitUpdate(vote, hash, tx)))
  }

  /** The vote that the reveal endpoint sends: overrides first, then memory, then the store. */
  function HelperVote(n: Node, key: Key, approveOverride: Option<bool>, saltOverride: Option<string>): Option<Vote> {
    var data := if key in n.commits then Some(n.commits[key])
                else if key in n.store then Some(n.store[key].vote) else None;
    var salt := if saltOverride.Some? then saltOverride else if data.Some? then Some(data.value.salt) else None;
    if (approveOverride.None? && data.None?) || !NonEmpty(salt) then None
    else
      var canonical := NormaliseSalt(salt.value);
      if canonical.None? then None
      else Some(Vote(if approveOverride.Some? then approveOverride.value else data.value.approve, canonical.value))
  }

  /** Looking a vote up caches it. */
  function HelperLookup(n: Node, key: Key): Node {
    if key !in n.commits && key in n.store then Remembered(n, key, n.store[key].vote) else n
  }

  function HelperRevealed(n: Node, key: Key, tx: string): Node {
    n.(commits := n.commits - {key}, store := Written(n.store, key, RevealUpdate(tx)))
  }

  function Rehydrated(n: Node, key: Key, id: nat): Assignment {
    if key in n.store
    then Assignment(id, if NonEmpty(n.store[key].revealTx) then Revealed else Committed, 0, false,
                    Some(n.store[key].vote))
    else Assignment(id, Selected, 0, false, None)
  }

  function Select(n: Node, key: Key, id: nat): Node {
    if key in n.assignments then n else n.(assignments := n.assignments[key := Rehydrated(n, key, id)])
  }

  /** The guards at the head of evaluateAndCommit. */
  predicate MayCommit(a: Assignment, maxRetries: nat) {
    !a.processing && a.status != Committed && a.status != Revealed && a.attempts < maxRetries
  }

  function Began(n: Node, key: Key): Node
    requires key in n.assignments
  {
    var a := n.assignments[key];
    n.(assignments := n.assignments[key := a.(processing := true, attempts := a.attempts + 1, status := Evaluating)])
  }

  function CommitFailed(n: Node, key: Key, id: nat): Node {
    if key in n.assignments && n.assignments[key].id == id
    then n.(assignments := n.assignments[key := n.assignments[key].(processing := false, status := Failed)])
    else n
  }

  /** The validator's own path writes memory and store in one go; a detached assignment is not written back. */
  function CommitRecorded(n: Node, key: Key, id: nat, vote: Vote, hash: string, tx: string): Node {
    var stored := Persisted(n, key, vote, hash, tx);
    if key in n.assignments && n.assignments[key].id == id
    then stored.(assignments := n.assignments[key := n.assignments[key].(processing := false, status := Committed,
                                                                         commit := Some(vote))])
    else stored
  }

  function ValidatorVote(n: Node, key: Key): Option<Vote> {
    if key !in n.assignments || n.assignments[key].status == Revealed then None
    else if n.assignments[key].commit.Some? then n.assignments[key].commit
    else if key in n.store then Some(n.store[key].vote) else None
  }

  function ValidatorLookup(n: Node, key: Key): Node {
    if ValidatorVote(n, key).Some?
    then n.(assignments := n.assignments[key := n.assignments[key].(commit := ValidatorVote(n, key))])
    else n
  }

  function ValidatorRevealed(n: Node, key: Key, id: nat, tx: string): Node {
    var stored := n.(store := Written(n.store, key, RevealUpdate(tx)));
    if key in n.assignments && n.assignments[key].id == id
    then stored.(assignments := n.assignments[key := n.assignments[key].(status := Revealed)])
    else stored
  }

  function Detached(n: Node, key: Key, metadata: map<string, string>): Node {
    if key in n.assignments
    then n.(store := Written(n.store, key, NO_UPDATE.(metadata := Some(metadata))),
            assignments := n.assignments - {key})
    else n
  }

  function CleanedUp(n: Node, job: string): Node {
    n.(commits := map k | k in n.commits && k.job != job :: n.commits[k])
  }

  function Disputed(n: Node, key: Key, dispute: Change): Node {
    if key in n.store then n.(store := Written(n.store, key, NO_UPDATE.(dispute := dispute))) else n
  }

  // ----- The gateway, its transactions and the chain -----

  /** Who waits for the transaction; nobody does once the process has died or the wait has failed. */
  datatype Path = ByHelper | ByValidator(assignment: nat) | Abandoned

  datatype Stage = Sent | Mined | InMemory

  /** A commit transaction together with the handler that waits for it. */
  datatype Flight = Flight(key: Key, vote: Vote, path: Path, stage: Stage)

  datatype Reveal = Reveal(key: Key, vote: Vote)

  datatype World = World(node: Node, chain: map<Key, string>, flights: map<nat, Flight>, sent: seq<Reveal>)

  datatype Event =
    | HelperCommits(f: nat, key: Key, approve: bool, saltOverride: Option<string>, random: string)
    | ValidatorCommits(f: nat, key: Key, approve: bool, random: string, maxRetries: nat)
    | Mine(f: nat)
    | HelperRemembers(f: nat)
    | HelperPersists(f: nat, tx: string)
    | ValidatorRecords(f: nat, tx: string)
    | ReceiptLost(f: nat)
    | AssignmentFails(key: Key)
    | Crash
    | ValidatorSelected(key: Key, id: nat)
    | JobDone(key: Key, metadata: map<string, string>)
    | CleanUp(job: string)
    | Dispute(key: Key, dispute: Change)
    | HelperReveals(key: Key)
    | HelperRevealConfirmed(key: Key, tx: string)
    | ValidatorReveals(key: Key)
    | ValidatorRevealConfirmed(key: Key, id: nat, tx: string)

  type Hash = (string, Vote) -> string

  ghost predicate Legal(w: World, e: Event) {
    match e
    case HelperCommits(f, _, _, _, random) => f !in w.flights && CanonicalSalt(random)
    case ValidatorCommits(f, _, _, random, _) => f !in w.flights && CanonicalSalt(random)
    case Mine(f) => f in w.flights && w.flights[f].stage == Sent
    case HelperRemembers(f) => f in w.flights && w.flights[f].path == ByHelper && w.flights[f].stage == Mined
    case HelperPersists(f, _) => f in w.flights && w.flights[f].path == ByHelper && w.flights[f].stage == InMemory
    case ValidatorRecords(f, _) => f in w.flights && w.flights[f].path.ByValidator? && w.flights[f].stage == Mined
    case ReceiptLost(f) => f in w.flights && !w.flights[f].path.Abandoned?
    case _ => true
  }

  function HelperSalt(saltOverride: Option<string>, random: string): Option<string> {
    if NonEmpty(saltOverride) then NormaliseSalt(saltOverride.value) else Some(random)
  }

  /**
   * A handler gives up and its transaction is settled: refused by the chain, or mined without the handler's
   * knowledge.
   */
  function GiveUp(w: World, f: nat): World
    requires f in w.flights
  {
    var flight := w.flights[f];
    w.(flights := w.flights - {f},
       node := if flight.path.ByValidator? then CommitFailed(w.node, flight.key, flight.path.assignment) else w.node)
  }

  /** The wait fails: the handler gives up, and a transaction not yet mined goes on without it. */
  function LoseReceipt(w: World, f: nat): World
    requires f in w.flights
  {
    var settled, flight := GiveUp(w, f), w.flights[f];
    if flight.stage == Sent then settled.(flights := w.flights[f := flight.(path := Abandoned)]) else settled
  }

  /** What a dying process leaves behind of its transactions: those that are sent and not yet mined. */
  function LeftBehind(flights: map<nat, Flight>): map<nat, Flight> {
    map f | f in flights && flights[f].stage == Sent :: flights[f].(path := Abandoned)
  }

  function Step(hash: Hash, w: World, e: Event): World
    requires Legal(w, e)
  {
    match e
    case HelperCommits(f, key, approve, saltOverride, random) =>
      var salt := HelperSalt(saltOverride, random);
      if salt.None? then w else w.(flights := w.flights[f := Flight(key, Vote(approve, salt.value), ByHelper, Sent)])
    case ValidatorCommits(f, key, approve, random, maxRetries) =>
      if key in w.node.assignments && MayCommit(w.node.assignments[key], maxRetries)
      then w.(node := Began(w.node, key),
              flights := w.flights[f := Flight(key, Vote(approve, random), ByValidator(w.node.assignments[key].id),
                                               Sent)])
      else w
    case Mine(f) =>
      var flight := w.flights[f];
      if flight.key in w.chain then GiveUp(w, f)
      else
        w.(chain := w.chain[flight.key := hash(flight.key.job, flight.vote)],
           flights := if flight.path.Abandoned? then w.flights - {f} else w.flights[f := flight.(stage := Mined)])
    case HelperRemembers(f) =>
      var flight := w.flights[f];
      w.(node := Remembered(w.node, flight.key, flight.vote), flights := w.flights[f := flight.(stage := InMemory)])
    case HelperPersists(f, tx) =>
      var flight := w.flights[f];
      w.(node := Persisted(w.node, flight.key, flight.vote, hash(flight.key.job, flight.vote), tx),
         flights := w.flights - {f})
    case ValidatorRecords(f, tx) =>
      var flight := w.flights[f];
      w.(node := CommitRecorded(w.node, flight.key, flight.path.assignment, flight.vote,
                                hash(flight.key.job, flight.vote), tx),
         flights := w.flights - {f})
    case ReceiptLost(f) => LoseReceipt(w, f)
    case AssignmentFails(key) =>
      if key in w.node.assignments then w.(node := CommitFailed(w.node, key, w.node.assignments[key].id)) else w
    case Crash => w.(node := Node(w.node.store, map[], map[]), flights := LeftBehind(w.flights))
    case ValidatorSelected(key, id) => w.(node := Select(w.node, key, id))
    case JobDone(key, metadata) => w.(node := Detached(w.node, key, metadata))
    case CleanUp(job) => w.(node := CleanedUp(w.node, job))
    case Dispute(key, dispute) => w.(node := Disputed(w.node, key, dispute))
    case HelperReveals(key) =>
      var vote := HelperVote(w.node, key, None, None);
      w.(node := HelperLookup(w.node, key), sent := if vote.Some? then w.sent + [Reveal(key, vote.value)] else w.sent)
    case HelperRevealConfirmed(key, tx) => w.(node := HelperRevealed(w.node, key, tx))
    case ValidatorReveals(key) =>
      var vote := ValidatorVote(w.node, key);
      w.(node := ValidatorLookup(w.node, key),
         sent := if vote.Some? then w.sent + [Reveal(key, vote.value)] else w.sent)
    case ValidatorRevealConfirmed(key, id, tx) => w.(node := ValidatorRevealed(w.node, key, id, tx))
  }

  const START := World(Node(map[], map[], map[]), map[], map[], [])

  ghost predicate LegalRun(hash: Hash, w: World, events: seq<Event>)
    decreases |events|
  {
    events == [] || (Legal(w, events[0]) && LegalRun(hash, Step(hash, w, events[0]), events[1..]))
  }

  ghost function Run(hash: Hash, w: World, events: seq<Event>): World
    requires LegalRun(hash, w, events)
    decreases |events|
  {
    if events == [] then w else Run(hash, Step(hash, w, events[0]), events[1..])
  }

  // ----- The invariant -----

  /** The vote opens the commitment that the chain holds for this job and validator. */
  ghost predicate Opens(hash: Hash, chain: map<Key, string>, key: Key, vote: Vote) {
    key in chain && chain[key] == hash(key.job, vote)
  }

  ghost predicate Good(hash: Hash, chain: map<Key, string>, key: Key, vote: Vote) {
    Opens(hash, chain, key, vote) && CanonicalSalt(vote.salt)
  }

  ghost predicate NodeGood(hash: Hash, chain: map<Key, string>, n: Node) {
    && (forall k :: k in n.store ==> Good(hash, chain, k, n.store[k].vote))
    && (forall k :: k in n.commits ==> Good(hash, chain, k, n.commits[k]))
    && (forall k :: k in n.assignments && n.assignments[k].commit.Some? ==>
          Good(hash, chain, k, n.assignments[k].commit.value))
  }

  ghost predicate FlightGood(hash: Hash, chain: map<Key, string>, flight: Flight) {
    CanonicalSalt(flight.vote.salt) && (flight.stage != Sent ==> Opens(hash, chain, flight.key, flight.vote))
  }

  ghost predicate Inv(hash: Hash, w: World) {
    NodeGood(hash, w.chain, w.node) && FlightsGood(hash, w.chain, w.flights) && SentGood(hash, w.chain, w.sent)
  }

  ghost predicate FlightsGood(hash: Hash, chain: map<Key, string>, flights: map<nat, Flight>) {
    forall f :: f in flights ==> FlightGood(hash, chain, flights[f])
  }

  ghost predicate SentGood(hash: Hash, chain: map<Key, string>, sent: seq<Reveal>) {
    forall i :: 0 <= i < |sent| ==> Opens(hash, chain, sent[i].key, sent[i].vote)
  }

  /** The chain only gains commitments, and it changes none. */
  lemma StepGrowsChain(hash: Hash, w: World, e: Event)
    requires Legal(w, e)
    ensures forall k :: k in w.chain ==> k in Step(hash, w, e).chain && Step(hash, w, e).chain[k] == w.chain[k]
    ensures w.sent <= Step(hash, w, e).sent
  {
  }

  lemma VoteWrites(hash: Hash, chain: map<Key, string>, n: Node, key: Key, vote: Vote, tx: string)
    requires NodeGood(hash, chain, n) && Good(hash, chain, key, vote)
    ensures NodeGood(hash, chain, Persisted(n, key, vote, hash(key.job, vote), tx))
  {
    var n' := Persisted(n, key, vote, hash(key.job, vote), tx);
    forall k | k in n'.store
      ensures Good(hash, chain, k, n'.store[k].vote)
    {
      if k != key { assert n'.store[k] == n.store[k]; }
    }
  }

  lemma OtherWrites(hash: Hash, chain: map<Key, string>, n: Node, key: Key, update: Update)
    requires NodeGood(hash, chain, n) && update.approve.None? && !NonEmpty(update.salt)
    ensures NodeGood(hash, chain, n.(store := Written(n.store, key, update)))
  {
    OnlyVotesChangeVotes(n.store, key, update);
  }

  lemma StepKeepsNode(hash: Hash, w: World, e: Event)
    requires Inv(hash, w) && Legal(w, e)
    ensures NodeGood(hash, Step(hash, w, e).chain, Step(hash, w, e).node)
  {
    match e
    case HelperPersists(f, tx) =>
      VoteWrites(hash, w.chain, w.node, w.flights[f].key, w.flights[f].vote, tx);
    case ValidatorRecords(f, tx) =>
      VoteWrites(hash, w.chain, w.node, w.flights[f].key, w.flights[f].vote, tx);
    case JobDone(key, metadata) =>
      OtherWrites(hash, w.chain, w.node, key, NO_UPDATE.(metadata := Some(metadata)));
    case Dispute(key, dispute) =>
      OtherWrites(hash, w.chain, w.node, key, NO_UPDATE.(dispute := dispute));
    case HelperRevealConfirmed(key, tx) =>
      OtherWrites(hash, w.chain, w.node, key, RevealUpdate(tx));
    case ValidatorRevealConfirmed(key, _, tx) =>
      OtherWrites(hash, w.chain, w.node, key, RevealUpdate(tx));
    case _ =>
  }

  lemma StepKeepsFlights(hash: Hash, w: World, e: Event)
    requires Inv(hash, w) && Legal(w, e)
    ensures FlightsGood(hash, Step(hash, w, e).chain, Step(hash, w, e).flights)
  {
    if e.HelperCommits? && NonEmpty(e.saltOverride) {
      NormalisedIsCanonical(e.saltOverride.value);
    }
  }

  /** What the reveal endpoint looks up without overrides opens the commitment. */
  lemma HelperVoteOpens(hash: Hash, chain: map<Key, string>, n: Node, key: Key)
    requires NodeGood(hash, chain, n)
    ensures var vote := HelperVote(n, key, None, None); vote.Some? ==> Opens(hash, chain, key, vote.value)
  {
    if key in n.commits {
      NormalisedIsCanonical(n.commits[key].salt);
    } else if key in n.store {
      NormalisedIsCanonical(n.store[key].vote.salt);
    }
  }

  lemma SentStaysGood(hash: Hash, chain: map<Key, string>, sent: seq<Reveal>, chain': map<Key, string>,
                      sent': seq<Reveal>)
    requires SentGood(hash, chain, sent)
    requires forall k :: k in chain ==> k in chain' && chain'[k] == chain[k]
    requires sent' == sent || (|sent'| == |sent| + 1 && sent <= sent'
                               && Opens(hash, chain, sent'[|sent|].key, sent'[|sent|].vote))
    ensures SentGood(hash, chain', sent')
  {
  }

  lemma StepKeepsSent(hash: Hash, w: World, e: Event)
    requires Inv(hash, w) && Legal(w, e)
    ensures SentGood(hash, Step(hash, w, e).chain, Step(hash, w, e).sent)
  {
    StepGrowsChain(hash, w, e);
    if e.HelperReveals? {
      HelperVoteOpens(hash, w.chain, w.node, e.key);
    }
    SentStaysGood(hash, w.chain, w.sent, Step(hash, w, e).chain, Step(hash, w, e).sent);
  }

  lemma StepKeepsInv(hash: Hash, w: World, e: Event)
    requires Inv(hash, w) && Legal(w, e)
    ensures Inv(hash, Step(hash, w, e))
  {
    StepKeepsNode(hash, w, e);
    StepKeepsFlights(hash, w, e);
    StepKeepsSent(hash, w, e);
  }

  lemma {:induction false} RunKeepsInv(hash: Hash, w: World, events: seq<Event>)
    requires Inv(hash, w) && LegalRun(hash, w, events)
    ensures Inv(hash, Run(hash, w, events))
    ensures forall k :: k in w.chain ==> k in Run(hash, w, events).chain && Run(hash, w, events).chain[k] == w.chain[k]
    ensures w.sent <= Run(hash, w, events).sent
    decreases |events|
  {
    if events != [] {
      StepKeepsInv(hash, w, events[0]);
      StepGrowsChain(hash, w, events[0]);
      RunKeepsInv(hash, Step(hash, w, events[0]), events[1..]);
    }
  }

  // ----- The theorems -----

  /** Every reveal sent without overrides opens the one commitment that the chain holds. */
  lemma RevealsOpenCommitments(hash: Hash, events: seq<Event>)
    requires LegalRun(hash, START, events)
    ensures var w := Run(hash, START, events);
            forall i :: 0 <= i < |w.sent| ==> Opens(hash, w.chain, w.sent[i].key, w.sent[i].vote)
  {
    RunKeepsInv(hash, START, events);
  }

  ghost predicate CollisionFree(hash: Hash) {
    forall job, a, b :: hash(job, a) == hash(job, b) ==> a == b
  }

  /** Whichever paths committed and revealed, all reveals for one job and validator carry the same vote. */
  lemma RevealsAgree(hash: Hash, events: seq<Event>, i: nat, j: nat)
    requires LegalRun(hash, START, events) && CollisionFree(hash)
    requires i < |Run(hash, START, events).sent| && j < |Run(hash, START, events).sent|
    ensures var sent := Run(hash, START, events).sent; sent[i].key == sent[j].key ==> sent[i].vote == sent[j].vote
  {
    RevealsOpenCommitments(hash, events);
  }

  /** A vote once stored is never lost or replaced, through crashes and everything else. */
  lemma {:induction false} StoredVotesStay(hash: Hash, w: World, events: seq<Event>, key: Key)
    requires Inv(hash, w) && CollisionFree(hash) && LegalRun(hash, w, events) && key in w.node.store
    ensures var w' := Run(hash, w, events); key in w'.node.store && w'.node.store[key].vote == w.node.store[key].vote
    decreases |events|
  {
    if events != [] {
      var w1 := Step(hash, w, events[0]);
      StepKeepsInv(hash, w, events[0]);
      StepGrowsChain(hash, w, events[0]);
      assert key in w1.node.store;
      assert Good(hash, w.chain, key, w.node.store[key].vote) && Good(hash, w1.chain, key, w1.node.store[key].vote);
      StoredVotesStay(hash, w1, events[1..], key);
    }
  }

  /** After a crash at any later moment, both reveal paths still send a stored vote. */
  lemma StoredVotesCanBeRevealed(hash: Hash, w: World, events: seq<Event>, key: Key, id: nat)
    requires Inv(hash, w) && CollisionFree(hash) && key in w.node.store && LegalRun(hash, w, events)
    ensures var crashed := Step(hash, Run(hash, w, events), Crash);
            var answer := Reveal(key, w.node.store[key].vote);
            var selected := Step(hash, crashed, ValidatorSelected(key, id));
            && Step(hash, crashed, HelperReveals(key)).sent == crashed.sent + [answer]
            && key in selected.node.assignments
            && (NonEmpty(Run(hash, w, events).node.store[key].revealTx) <==>
                  selected.node.assignments[key].status == Revealed)
            && (selected.node.assignments[key].status == Revealed
                || Step(hash, selected, ValidatorReveals(key)).sent == crashed.sent + [answer])
  {
    StoredVotesStay(hash, w, events, key);
    RunKeepsInv(hash, w, events);
    RevealableAfterCrash(hash, Run(hash, w, events), key, id);
  }

  lemma RevealableAfterCrash(hash: Hash, w: World, key: Key, id: nat)
    requires Inv(hash, w) && key in w.node.store
    ensures var crashed := Step(hash, w, Crash);
            var answer := Reveal(key, w.node.store[key].vote);
            var selected := Step(hash, crashed, ValidatorSelected(key, id));
            && Step(hash, crashed, HelperReveals(key)).sent == crashed.sent + [answer]
            && key in selected.node.assignments
            && (selected.node.assignments[key].status == Revealed
                || Step(hash, selected, ValidatorReveals(key)).sent == crashed.sent + [answer])
  {
    HelperRevealsAfterCrash(hash, w, key);
    ValidatorRevealsAfterCrash(w.node.store, key, id);
    var crashed := Step(hash, w, Crash);
    var selected := Step(hash, crashed, ValidatorSelected(key, id));
    assert selected.node == Select(Node(w.node.store, map[], map[]), key, id);
    assert Legal(selected, ValidatorReveals(key)) && selected.sent == crashed.sent;
  }

  lemma HelperRevealsAfterCrash(hash: Hash, w: World, key: Key)
    requires Inv(hash, w) && key in w.node.store
    ensures var crashed := Step(hash, w, Crash);
            Step(hash, crashed, HelperReveals(key)).sent == crashed.sent + [Reveal(key, w.node.store[key].vote)]
  {
    assert Good(hash, w.chain, key, w.node.store[key].vote);
    NormalisedIsCanonical(w.node.store[key].vote.salt);
  }

  lemma ValidatorRevealsAfterCrash(store: map<Key, Record>, key: Key, id: nat)
    requires key in store
    ensures var selected := Select(Node(store, map[], map[]), key, id);
            && key in selected.assignments
            && (selected.assignments[key].status == Revealed || ValidatorVote(selected, key) == Some(store[key].vote))
  {
  }

  /** What the end of a job changes, and that it changes nothing else. */
  lemma JobDoneForgetsTheAssignment(hash: Hash, w: World, key: Key, metadata: map<string, string>)
    ensures var done := Step(hash, w, JobDone(key, metadata));
            && done == w.(node := Node(done.node.store, w.node.commits, w.node.assignments - {key}))
            && (if key in w.node.assignments
                then done.node.store == Written(w.node.store, key, NO_UPDATE.(metadata := Some(metadata)))
                else done.node.store == w.node.store)
  {
  }

  /** What a cleanup and a dispute change, and that they change nothing else. */
  lemma HousekeepingSteps(hash: Hash, w: World, key: Key, dispute: Change)
    ensures var cleaned := Step(hash, w, CleanUp(key.job));
            && cleaned == w.(node := Node(w.node.store, cleaned.node.commits, w.node.assignments))
            && (forall k :: k in cleaned.node.commits <==> k in w.node.commits && k.job != key.job)
            && (forall k :: k in cleaned.node.commits ==> cleaned.node.commits[k] == w.node.commits[k])
    ensures var disputed := Step(hash, w, Dispute(key, dispute));
            && disputed == w.(node := Node(disputed.node.store, w.node.commits, w.node.assignments))
            && disputed.node.store.Keys == w.node.store.Keys
            && (key in w.node.store && dispute.Set? ==> disputed.node.store[key].dispute == Some(dispute.value))
  {
  }

  /** A reveal remembers the vote that it looked up, with the assignment or for the endpoint. */
  lemma RevealsRememberTheVote(hash: Hash, w: World, key: Key)
    ensures key in w.node.commits || key in w.node.store ==>
              key in Step(hash, w, HelperReveals(key)).node.commits
    ensures var after := Step(hash, w, ValidatorReveals(key));
            var a, sent := after.node.assignments, after.sent;
            if sent == w.sent then a == w.node.assignments
            else key in w.node.assignments && key in a && a[key].commit == Some(Last(sent).vote)
                 && Last(sent).key == key && a == w.node.assignments[key := a[key]]
  {
  }

  /** The chain holds a commitment whose vote is nowhere in the gateway, and no pending transaction can replace it. */
  ghost predicate Orphaned(w: World, key: Key) {
    && key in w.chain && key !in w.node.store && key !in w.node.commits
    && (key in w.node.assignments ==> w.node.assignments[key].commit.None?)
    && forall f :: f in w.flights && w.flights[f].key == key ==> w.flights[f].stage == Sent
  }

  lemma StepKeepsOrphan(hash: Hash, w: World, e: Event, key: Key)
    requires Orphaned(w, key) && Legal(w, e)
    ensures Orphaned(Step(hash, w, e), key)
    ensures |w.sent| <= |Step(hash, w, e).sent| <= |w.sent| + 1
    ensures forall i :: |w.sent| <= i < |Step(hash, w, e).sent| ==> Step(hash, w, e).sent[i].key != key
  {
    StepKeepsOrphanNode(hash, w, e, key);
    StepKeepsOrphanFlights(hash, w, e, key);
    assert e.HelperReveals? && e.key == key ==> HelperVote(w.node, key, None, None).None?;
    assert e.ValidatorReveals? && e.key == key ==> ValidatorVote(w.node, key).None?;
  }

  lemma StepKeepsOrphanNode(hash: Hash, w: World, e: Event, key: Key)
    requires Orphaned(w, key) && Legal(w, e)
    ensures var n := Step(hash, w, e).node;
            key !in n.store && key !in n.commits && (key in n.assignments ==> n.assignments[key].commit.None?)
  {
    StepKeepsOrphanStore(hash, w, e, key);
  }

  lemma StepKeepsOrphanStore(hash: Hash, w: World, e: Event, key: Key)
    requires Orphaned(w, key) && Legal(w, e)
    ensures key !in Step(hash, w, e).node.store
  {
    match e
    case HelperRevealConfirmed(k, tx) => OnlyVotesChangeVotes(w.node.store, k, RevealUpdate(tx));
    case ValidatorRevealConfirmed(k, _, tx) => OnlyVotesChangeVotes(w.node.store, k, RevealUpdate(tx));
    case JobDone(k, metadata) => OnlyVotesChangeVotes(w.node.store, k, NO_UPDATE.(metadata := Some(metadata)));
    case Dispute(k, dispute) => OnlyVotesChangeVotes(w.node.store, k, NO_UPDATE.(dispute := dispute));
    case _ =>
  }

  lemma StepKeepsOrphanFlights(hash: Hash, w: World, e: Event, key: Key)
    requires Orphaned(w, key) && Legal(w, e)
    ensures var w' := Step(hash, w, e);
            key in w'.chain && forall f :: f in w'.flights && w'.flights[f].key == key ==> w'.flights[f].stage == Sent
  {
  }

  // ----- Failed commits -----

  /** The commit of this key's assignment fails: it gives up, its receipt is lost, or the chain refuses it. */
  ghost predicate CommitFails(w: World, e: Event, key: Key)
    requires Legal(w, e)
  {
    && key in w.node.assignments
    && (e == AssignmentFails(key)
        || ((e.ReceiptLost? || (e.Mine? && key in w.chain))
            && w.flights[e.f].key == key && w.flights[e.f].path == ByValidator(w.node.assignments[key].id)))
  }

  /** A failed commit can begin again exactly when attempts are left, and then sends a new transaction. */
  lemma FailedCommitsRetry(hash: Hash, w: World, e: Event, key: Key, f: nat, approve: bool, random: string,
                           maxRetries: nat)
    requires Legal(w, e) && CommitFails(w, e, key) && CanonicalSalt(random) && f !in Step(hash, w, e).flights
    ensures var a := w.node.assignments[key];
            var failed := Step(hash, w, e);
            var retried := Step(hash, failed, ValidatorCommits(f, key, approve, random, maxRetries));
            && failed.node.assignments ==
                 w.node.assignments[key := Assignment(a.id, Failed, a.attempts, false, a.commit)]
            && failed.node.store == w.node.store && failed.node.commits == w.node.commits
            && (if a.attempts < maxRetries then
                  && retried.flights == failed.flights[f := Flight(key, Vote(approve, random), ByValidator(a.id), Sent)]
                  && retried.node.assignments ==
                       failed.node.assignments[key := Assignment(a.id, Evaluating, a.attempts + 1, true, a.commit)]
                else retried == failed)
  {
  }

  ghost predicate AttemptsWithin(n: Node, limit: nat) {
    forall k :: k in n.assignments ==> n.assignments[k].attempts <= limit
  }

  ghost predicate RetriesAtMost(events: seq<Event>, limit: nat) {
    forall i :: 0 <= i < |events| && events[i].ValidatorCommits? ==> events[i].maxRetries <= limit
  }

  /** In every run no assignment begins more often than the limit. */
  lemma {:induction false} AttemptsAreBounded(hash: Hash, w: World, events: seq<Event>, limit: nat)
    requires LegalRun(hash, w, events) && RetriesAtMost(events, limit) && AttemptsWithin(w.node, limit)
    ensures AttemptsWithin(Run(hash, w, events).node, limit)
    decreases |events|
  {
    if events != [] {
      assert events[0].ValidatorCommits? ==> events[0].maxRetries <= limit;
      StepKeepsAttempts(hash, w, events[0], limit);
      assert RetriesAtMost(events[1..], limit);
      AttemptsAreBounded(hash, Step(hash, w, events[0]), events[1..], limit);
    }
  }

  lemma StepKeepsAttempts(hash: Hash, w: World, e: Event, limit: nat)
    requires Legal(w, e) && AttemptsWithin(w.node, limit) && (e.ValidatorCommits? ==> e.maxRetries <= limit)
    ensures AttemptsWithin(Step(hash, w, e).node, limit)
  {
  }

  // ----- Rounds that go well -----

  /** The record of a vote that was committed and revealed with these transactions. */
  ghost function RevealedRecord(hash: Hash, key: Key, vote: Vote, tx: string, revealTx: string): Record {
    Record(vote, hash(key.job, vote), Some(tx), Some(revealTx), None, map[])
  }

  lemma OneStep(hash: Hash, w: World, e: Event, rest: seq<Event>)
    requires Legal(w, e) && LegalRun(hash, Step(hash, w, e), rest)
    ensures LegalRun(hash, w, [e] + rest) && Run(hash, w, [e] + rest) == Run(hash, Step(hash, w, e), rest)
  {
    assert ([e] + rest)[1..] == rest;
  }

  lemma ThreeSteps(hash: Hash, w: World, a: Event, b: Event, c: Event)
    requires Legal(w, a) && Legal(Step(hash, w, a), b) && Legal(Step(hash, Step(hash, w, a), b), c)
    ensures LegalRun(hash, w, [a, b, c])
    ensures Run(hash, w, [a, b, c]) == Step(hash, Step(hash, Step(hash, w, a), b), c)
  {
    OneStep(hash, Step(hash, Step(hash, w, a), b), c, []);
    OneStep(hash, Step(hash, w, a), b, [c]);
    OneStep(hash, w, a, [b, c]);
    assert [c] + [] == [c] && [b] + [c] == [b, c] && [a] + [b, c] == [a, b, c];
  }

  /** Two runs of three steps each, one after the other. */
  lemma SixSteps(hash: Hash, w: World, w1: World, w2: World, a: Event, b: Event, c: Event, d: Event, e: Event, f: Event)
    requires LegalRun(hash, w, [a, b, c]) && Run(hash, w, [a, b, c]) == w1
    requires LegalRun(hash, w1, [d, e, f]) && Run(hash, w1, [d, e, f]) == w2
    ensures LegalRun(hash, w, [a, b, c, d, e, f]) && Run(hash, w, [a, b, c, d, e, f]) == w2
  {
    RunMore(hash, w, [a, b, c], [d, e, f]);
    assert [a, b, c] + [d, e, f] == [a, b, c, d, e, f];
  }

  lemma {:induction false} RunMore(hash: Hash, w: World, a: seq<Event>, b: seq<Event>)
    requires LegalRun(hash, w, a) && LegalRun(hash, Run(hash, w, a), b)
    ensures LegalRun(hash, w, a + b) && Run(hash, w, a + b) == Run(hash, Run(hash, w, a), b)
    decreases |a|
  {
    if a == [] {
      assert a + b == b;
    } else {
      RunMore(hash, Step(hash, w, a[0]), a[1..], b);
      assert (a + b)[1..] == a[1..] + b;
    }
  }

  /** A validator is selected, sends its commitment, and the commitment is mined. */
  lemma ValidatorSends(hash: Hash, w: World, key: Key, id: nat, f: nat, approve: bool, random: string, maxRetries: nat)
    requires key !in w.chain && key !in w.node.assignments && key !in w.node.store && f !in w.flights && maxRetries > 0
    requires CanonicalSalt(random)
    ensures var events := [ValidatorSelected(key, id), ValidatorCommits(f, key, approve, random, maxRetries), Mine(f)];
            var vote := Vote(approve, random);
            && LegalRun(hash, w, events)
            && Run(hash, w, events) ==
                 World(w.node.(assignments := w.node.assignments[key := Assignment(id, Evaluating, 1, true, None)]),
                       w.chain[key := hash(key.job, vote)],
                       w.flights[f := Flight(key, vote, ByValidator(id), Mined)], w.sent)
  {
    var w1 := Step(hash, w, ValidatorSelected(key, id));
    var selected := w.node.assignments[key := Assignment(id, Selected, 0, false, None)];
    assert w1 == w.(node := w.node.(assignments := selected));
    var w2 := Step(hash, w1, ValidatorCommits(f, key, approve, random, maxRetries));
    var began := w.node.assignments[key := Assignment(id, Evaluating, 1, true, None)];
    assert w1.node.assignments[key := began[key]] == began;
    assert w2 == w.(node := w.node.(assignments := began),
                    flights := w.flights[f := Flight(key, Vote(approve, random), ByValidator(id), Sent)]);
    ThreeSteps(hash, w, ValidatorSelected(key, id), ValidatorCommits(f, key, approve, random, maxRetries), Mine(f));
    assert w2.flights[f := w2.flights[f].(stage := Mined)] ==
             w.flights[f := Flight(key, Vote(approve, random), ByValidator(id), Mined)];
  }

  /** The handler records its mined commitment, reveals it, and the reveal is confirmed. */
  lemma ValidatorRecordsAndReveals(hash: Hash, w: World, key: Key, id: nat, f: nat, vote: Vote, tx: string,
                                   revealTx: string)
    requires key in w.node.assignments && w.node.assignments[key] == Assignment(id, Evaluating, 1, true, None)
    requires f in w.flights && w.flights[f] == Flight(key, vote, ByValidator(id), Mined) && key !in w.node.store
    requires hash(key.job, vote) != "" && vote.salt != "" && tx != "" && revealTx != ""
    ensures var events := [ValidatorRecords(f, tx), ValidatorReveals(key), ValidatorRevealConfirmed(key, id, revealTx)];
            && LegalRun(hash, w, events)
            && Run(hash, w, events) ==
                 World(Node(w.node.store[key := RevealedRecord(hash, key, vote, tx, revealTx)],
                            w.node.commits, w.node.assignments[key := Assignment(id, Revealed, 1, false, Some(vote))]),
                       w.chain, w.flights - {f}, w.sent + [Reveal(key, vote)])
  {
    var record := Record(vote, hash(key.job, vote), Some(tx), None, None, map[]);
    var n1 := w.node.(store := w.node.store[key := record],
                      assignments := w.node.assignments[key := Assignment(id, Committed, 1, false, Some(vote))]);
    var w1 := Step(hash, w, ValidatorRecords(f, tx));
    assert w1 == w.(node := n1, flights := w.flights - {f});
    var w2 := Step(hash, w1, ValidatorReveals(key));
    assert n1.assignments[key := n1.assignments[key]] == n1.assignments;
    assert w2 == w1.(sent := w.sent + [Reveal(key, vote)]);
    var n3 := ValidatorRevealed(n1, key, id, revealTx);
    assert n3.store == n1.store[key := record.(revealTx := Some(revealTx))];
    assert n3.store == w.node.store[key := record.(revealTx := Some(revealTx))];
    assert n3.assignments == w.node.assignments[key := Assignment(id, Revealed, 1, false, Some(vote))];
    ThreeSteps(hash, w, ValidatorRecords(f, tx), ValidatorReveals(key), ValidatorRevealConfirmed(key, id, revealTx));
  }

  /** The validator's own path, undisturbed: the vote committed is the vote revealed, and the record says so. */
  lemma ValidatorRoundCompletes(hash: Hash, w: World, key: Key, id: nat, f: nat, approve: bool, random: string,
                                maxRetries: nat, tx: string, revealTx: string)
    requires Inv(hash, w) && key !in w.chain && key !in w.node.assignments && f !in w.flights && maxRetries > 0
    requires NeverEmpty(hash) && CanonicalSalt(random) && tx != "" && revealTx != ""
    ensures var events := [ValidatorSelected(key, id), ValidatorCommits(f, key, approve, random, maxRetries), Mine(f),
                           ValidatorRecords(f, tx), ValidatorReveals(key), ValidatorRevealConfirmed(key, id, revealTx)];
            var vote := Vote(approve, random);
            && LegalRun(hash, w, events)
            && Run(hash, w, events) ==
                 World(Node(w.node.store[key := RevealedRecord(hash, key, vote, tx, revealTx)],
                            w.node.commits, w.node.assignments[key := Assignment(id, Revealed, 1, false, Some(vote))]),
                       w.chain[key := hash(key.job, vote)], w.flights, w.sent + [Reveal(key, vote)])
  {
    NothingStoredYet(hash, w, key);
    ValidatorSends(hash, w, key, id, f, approve, random, maxRetries);
    var w1 := Run(hash, w, [ValidatorSelected(key, id), ValidatorCommits(f, key, approve, random, maxRetries),
                            Mine(f)]);
    ValidatorRecordsAndReveals(hash, w1, key, id, f, Vote(approve, random), tx, revealTx);
    var w2 := Run(hash, w1, [ValidatorRecords(f, tx), ValidatorReveals(key),
                             ValidatorRevealConfirmed(key, id, revealTx)]);
    SixSteps(hash, w, w1, w2, ValidatorSelected(key, id), ValidatorCommits(f, key, approve, random, maxRetries),
             Mine(f),
             ValidatorRecords(f, tx), ValidatorReveals(key), ValidatorRevealConfirmed(key, id, revealTx));
    assert w1.flights - {f} == w.flights;
    assert w1.node.assignments[key := Assignment(id, Revealed, 1, false, Some(Vote(approve, random)))] ==
             w.node.assignments[key := Assignment(id, Revealed, 1, false, Some(Vote(approve, random)))];
  }

  /** Before a commitment is on the chain, nothing is stored for it. */
  lemma NothingStoredYet(hash: Hash, w: World, key: Key)
    requires Inv(hash, w) && key !in w.chain
    ensures key !in w.node.store
  {
    assert key in w.node.store ==> Good(hash, w.chain, key, w.node.store[key].vote);
  }

  lemma HelperSaltIsCanonical(saltOverride: Option<string>, random: string)
    requires CanonicalSalt(random) && HelperSalt(saltOverride, random).Some?
    ensures CanonicalSalt(HelperSalt(saltOverride, random).value)
  {
    if NonEmpty(saltOverride) {
      NormalisedIsCanonical(saltOverride.value);
    }
  }

  /** A caller's commitment is sent, mined and remembered. */
  lemma HelperSends(hash: Hash, w: World, key: Key, f: nat, approve: bool, saltOverride: Option<string>, random: string)
    requires key !in w.chain && f !in w.flights && CanonicalSalt(random) && HelperSalt(saltOverride, random).Some?
    ensures var events := [HelperCommits(f, key, approve, saltOverride, random), Mine(f), HelperRemembers(f)];
            var vote := Vote(approve, HelperSalt(saltOverride, random).value);
            && LegalRun(hash, w, events)
            && Run(hash, w, events) ==
                 World(w.node.(commits := w.node.commits[key := vote]), w.chain[key := hash(key.job, vote)],
                       w.flights[f := Flight(key, vote, ByHelper, InMemory)], w.sent)
  {
    var vote := Vote(approve, HelperSalt(saltOverride, random).value);
    var w1 := Step(hash, w, HelperCommits(f, key, approve, saltOverride, random));
    assert w1 == w.(flights := w.flights[f := Flight(key, vote, ByHelper, Sent)]);
    var w2 := Step(hash, w1, Mine(f));
    assert w2.flights == w.flights[f := Flight(key, vote, ByHelper, Mined)];
    var w3 := Step(hash, w2, HelperRemembers(f));
    assert w3.flights == w.flights[f := Flight(key, vote, ByHelper, InMemory)];
    ThreeSteps(hash, w, HelperCommits(f, key, approve, saltOverride, random), Mine(f), HelperRemembers(f));
  }

  /** The vote is persisted, revealed, and the reveal is confirmed. */
  lemma HelperPersistsAndReveals(hash: Hash, w: World, key: Key, f: nat, vote: Vote, tx: string, revealTx: string)
    requires key in w.node.commits && w.node.commits[key] == vote && CanonicalSalt(vote.salt) && key !in w.node.store
    requires f in w.flights && w.flights[f] == Flight(key, vote, ByHelper, InMemory)
    requires hash(key.job, vote) != "" && tx != "" && revealTx != ""
    ensures var events := [HelperPersists(f, tx), HelperReveals(key), HelperRevealConfirmed(key, revealTx)];
            && LegalRun(hash, w, events)
            && Run(hash, w, events) ==
                 World(Node(w.node.store[key := RevealedRecord(hash, key, vote, tx, revealTx)],
                            w.node.commits - {key}, w.node.assignments),
                       w.chain, w.flights - {f}, w.sent + [Reveal(key, vote)])
  {
    NormalisedIsCanonical(vote.salt);
    var record := Record(vote, hash(key.job, vote), Some(tx), None, None, map[]);
    var w1 := Step(hash, w, HelperPersists(f, tx));
    assert w1 == w.(node := w.node.(store := w.node.store[key := record]), flights := w.flights - {f});
    var w2 := Step(hash, w1, HelperReveals(key));
    assert w2 == w1.(sent := w.sent + [Reveal(key, vote)]);
    assert HelperRevealed(w2.node, key, revealTx).store == w.node.store[key := record.(revealTx := Some(revealTx))];
    ThreeSteps(hash, w, HelperPersists(f, tx), HelperReveals(key), HelperRevealConfirmed(key, revealTx));
  }

  /** The same through the endpoints; a salt that the caller gives is used in its canonical form. */
  lemma HelperRoundCompletes(hash: Hash, w: World, key: Key, f: nat, approve: bool, saltOverride: Option<string>,
                             random: string, tx: string, revealTx: string)
    requires Inv(hash, w) && key !in w.chain && f !in w.flights && NeverEmpty(hash) && tx != "" && revealTx != ""
    requires CanonicalSalt(random) && HelperSalt(saltOverride, random).Some?
    ensures var events := [HelperCommits(f, key, approve, saltOverride, random), Mine(f), HelperRemembers(f),
                           HelperPersists(f, tx), HelperReveals(key), HelperRevealConfirmed(key, revealTx)];
            var vote := Vote(approve, if NonEmpty(saltOverride) then NormaliseSalt(saltOverride.value).value
                                      else random);
            && LegalRun(hash, w, events)
            && Run(hash, w, events) ==
                 World(Node(w.node.store[key := RevealedRecord(hash, key, vote, tx, revealTx)],
                            w.node.commits - {key}, w.node.assignments),
                       w.chain[key := hash(key.job, vote)], w.flights, w.sent + [Reveal(key, vote)])
  {
    NothingStoredYet(hash, w, key);
    HelperSaltIsCanonical(saltOverride, random);
    var vote := Vote(approve, HelperSalt(saltOverride, random).value);
    HelperSends(hash, w, key, f, approve, saltOverride, random);
    var w1 := Run(hash, w, [HelperCommits(f, key, approve, saltOverride, random), Mine(f), HelperRemembers(f)]);
    assert w1.node.commits[key] == vote && w1.flights[f] == Flight(key, vote, ByHelper, InMemory);
    HelperPersistsAndReveals(hash, w1, key, f, vote, tx, revealTx);
    var w2 := Run(hash, w1, [HelperPersists(f, tx), HelperReveals(key), HelperRevealConfirmed(key, revealTx)]);
    SixSteps(hash, w, w1, w2, HelperCommits(f, key, approve, saltOverride, random), Mine(f), HelperRemembers(f),
             HelperPersists(f, tx), HelperReveals(key), HelperRevealConfirmed(key, revealTx));
    assert w1.flights - {f} == w.flights && w1.node.commits - {key} == w.node.commits - {key};
  }

  /** What is orphaned stays so: no later run sends a reveal of it, unless a caller supplies the vote as an override. */
  lemma {:induction false} OrphansAreNeverRevealed(hash: Hash, w: World, events: seq<Event>, key: Key)
    requires Orphaned(w, key) && LegalRun(hash, w, events)
    ensures var w' := Run(hash, w, events);
            && Orphaned(w', key)
            && |w.sent| <= |w'.sent|
            && forall i :: |w.sent| <= i < |w'.sent| ==> w'.sent[i].key != key
    decreases |events|
  {
    if events != [] {
      StepKeepsOrphan(hash, w, events[0], key);
      StepGrowsChain(hash, w, events[0]);
      OrphansAreNeverRevealed(hash, Step(hash, w, events[0]), events[1..], key);
      RunKeepsSent(hash, Step(hash, w, events[0]), events[1..]);
    }
  }

  lemma {:induction false} RunKeepsSent(hash: Hash, w: World, events: seq<Event>)
    requires LegalRun(hash, w, events)
    ensures w.sent <= Run(hash, w, events).sent
    decreases |events|
  {
    if events != [] {
      StepGrowsChain(hash, w, events[0]);
      RunKeepsSent(hash, Step(hash, w, events[0]), events[1..]);
    }
  }

  ghost predicate RevealsLater(hash: Hash, w: World, events: seq<Event>, key: Key)
    requires LegalRun(hash, w, events)
  {
    exists i :: |w.sent| <= i < |Run(hash, w, events).sent| && Run(hash, w, events).sent[i].key == key
  }

  ghost predicate CanBeRevealed(hash: Hash, w: World, key: Key) {
    exists events :: LegalRun(hash, w, events) && RevealsLater(hash, w, events, key)
  }

  ghost predicate NeverEmpty(hash: Hash) {
    forall job, vote :: hash(job, vote) != ""
  }

  /** Somebody will still record what is mined: only a transaction that has yet to be mined can be abandoned. */
  ghost predicate Attended(flight: Flight) {
    || flight.stage == Sent
    || flight.path.ByHelper?
    || (flight.path.ByValidator? && flight.stage == Mined)
  }

  ghost predicate FlightsAttended(flights: map<nat, Flight>) {
    forall f :: f in flights ==> Attended(flights[f])
  }

  /** The votes that assignments remember are stored as well. */
  ghost predicate VotesBacked(n: Node) {
    forall k :: k in n.assignments && n.assignments[k].commit.Some? ==> k in n.store
  }

  ghost predicate Backed(w: World) {
    VotesBacked(w.node) && FlightsAttended(w.flights)
  }

  lemma StepKeepsBacked(hash: Hash, w: World, e: Event)
    requires Inv(hash, w) && Backed(w) && NeverEmpty(hash) && Legal(w, e)
    ensures Backed(Step(hash, w, e))
  {
    StepKeepsVotesBacked(hash, w, e);
    StepKeepsFlightsAttended(hash, w, e);
  }

  lemma StepKeepsVotesBacked(hash: Hash, w: World, e: Event)
    requires Inv(hash, w) && VotesBacked(w.node) && NeverEmpty(hash) && Legal(w, e)
    ensures VotesBacked(Step(hash, w, e).node)
  {
    match e
    case ValidatorRecords(f, tx) => RecordingStores(hash, w.chain, w.node, w.flights[f], tx);
    case ValidatorReveals(key) => assert VotesBacked(ValidatorLookup(w.node, key));
    case ValidatorSelected(key, id) => assert VotesBacked(Select(w.node, key, id));
    case _ =>
      StepKeepsRecords(hash, w, e);
      OtherStepsRememberNothing(hash, w, e);
  }

  lemma OtherStepsRememberNothing(hash: Hash, w: World, e: Event)
    requires Legal(w, e) && !e.ValidatorRecords? && !e.ValidatorReveals? && !e.ValidatorSelected?
    ensures var after := Step(hash, w, e).node.assignments;
            forall k :: k in after && after[k].commit.Some? ==>
              k in w.node.assignments && w.node.assignments[k].commit.Some?
  {
  }

  /** What the validator's path remembers it also stores. */
  lemma RecordingStores(hash: Hash, chain: map<Key, string>, n: Node, flight: Flight, tx: string)
    requires VotesBacked(n) && NeverEmpty(hash) && FlightGood(hash, chain, flight) && flight.path.ByValidator?
    ensures VotesBacked(CommitRecorded(n, flight.key, flight.path.assignment, flight.vote,
                                       hash(flight.key.job, flight.vote), tx))
  {
  }

  lemma StepKeepsFlightsAttended(hash: Hash, w: World, e: Event)
    requires FlightsAttended(w.flights) && Legal(w, e)
    ensures FlightsAttended(Step(hash, w, e).flights)
  {
  }

  lemma StepKeepsRecords(hash: Hash, w: World, e: Event)
    requires Legal(w, e)
    ensures w.node.store.Keys <= Step(hash, w, e).node.store.Keys
  {
  }

  lemma {:induction false} RunKeepsBacked(hash: Hash, w: World, events: seq<Event>)
    requires Inv(hash, w) && Backed(w) && NeverEmpty(hash) && LegalRun(hash, w, events)
    ensures Inv(hash, Run(hash, w, events)) && Backed(Run(hash, w, events))
    decreases |events|
  {
    if events != [] {
      StepKeepsInv(hash, w, events[0]);
      StepKeepsBacked(hash, w, events[0]);
      RunKeepsBacked(hash, Step(hash, w, events[0]), events[1..]);
    }
  }

  /** The endpoint sends a vote that is remembered or stored. */
  lemma EndpointReveals(hash: Hash, w: World, key: Key)
    requires Inv(hash, w) && (key in w.node.commits || key in w.node.store)
    ensures CanBeRevealed(hash, w, key)
  {
    if key in w.node.commits {
      assert Good(hash, w.chain, key, w.node.commits[key]);
      NormalisedIsCanonical(w.node.commits[key].salt);
    } else {
      assert Good(hash, w.chain, key, w.node.store[key].vote);
      NormalisedIsCanonical(w.node.store[key].vote.salt);
    }
    var events := [HelperReveals(key)];
    var revealed := Step(hash, w, events[0]);
    assert events[1..] == [] && LegalRun(hash, revealed, []) && Run(hash, revealed, []) == revealed;
    assert LegalRun(hash, w, events) && Run(hash, w, events) == revealed;
    assert revealed.sent[|w.sent|].key == key;
    assert RevealsLater(hash, w, events, key);
  }

  /** What can be revealed after a step could be revealed before it. */
  lemma RevealableEarlier(hash: Hash, w: World, e: Event, key: Key)
    requires Legal(w, e) && CanBeRevealed(hash, Step(hash, w, e), key)
    ensures CanBeRevealed(hash, w, key)
  {
    var w' := Step(hash, w, e);
    var rest :| LegalRun(hash, w', rest) && RevealsLater(hash, w', rest, key);
    var events := [e] + rest;
    assert events[1..] == rest;
    assert LegalRun(hash, w, events) && Run(hash, w, events) == Run(hash, w', rest);
    StepGrowsChain(hash, w, e);
    assert RevealsLater(hash, w, events, key);
  }

  /** A mined transaction whose handler still lives can be recorded, and then revealed. */
  lemma AttendedReveals(hash: Hash, w: World, f: nat)
    requires Inv(hash, w) && Backed(w) && NeverEmpty(hash) && f in w.flights && w.flights[f].stage != Sent
    ensures CanBeRevealed(hash, w, w.flights[f].key)
  {
    var flight := w.flights[f];
    assert Attended(flight);
    var e := if flight.path.ByValidator? then ValidatorRecords(f, "")
             else if flight.stage == Mined then HelperRemembers(f) else HelperPersists(f, "");
    StepKeepsInv(hash, w, e);
    EndpointReveals(hash, Step(hash, w, e), flight.key);
    RevealableEarlier(hash, w, e, flight.key);
  }

  /**
   * In every state of every run: a commitment on the chain can be revealed in some later run, without overrides, if and
   * only if it is not orphaned.  It does not matter when it was mined, before a crash or after.
   */
  lemma RevealableUnlessOrphaned(hash: Hash, events: seq<Event>, key: Key)
    requires LegalRun(hash, START, events) && NeverEmpty(hash) && key in Run(hash, START, events).chain
    ensures CanBeRevealed(hash, Run(hash, START, events), key) <==> !Orphaned(Run(hash, START, events), key)
  {
    RunKeepsBacked(hash, START, events);
    var w := Run(hash, START, events);
    if Orphaned(w, key) {
      OrphansCannotBeRevealed(hash, w, key);
    } else if key in w.node.commits || key in w.node.store {
      EndpointReveals(hash, w, key);
    } else {
      var f :| f in w.flights && w.flights[f].key == key && w.flights[f].stage != Sent;
      AttendedReveals(hash, w, f);
    }
  }

  lemma OrphansCannotBeRevealed(hash: Hash, w: World, key: Key)
    requires Orphaned(w, key)
    ensures !CanBeRevealed(hash, w, key)
  {
    forall events | LegalRun(hash, w, events)
      ensures !RevealsLater(hash, w, events, key)
    {
      OrphansAreNeverRevealed(hash, w, events, key);
    }
  }

  /** At a crash the store decides: what is on the chain by then can be revealed later if and only if it is stored. */
  lemma RevealableIffStored(hash: Hash, w: World, key: Key)
    requires Inv(hash, w) && key in w.chain
    ensures key in w.node.store <==> CanBeRevealed(hash, Step(hash, w, Crash), key)
  {
    var crashed := Step(hash, w, Crash);
    if key in w.node.store {
      StepKeepsInv(hash, w, Crash);
      EndpointReveals(hash, crashed, key);
    } else {
      OrphansCannotBeRevealed(hash, crashed, key);
    }
  }

  /** A wait that fails, or a crash, makes such a transaction of every one that is sent and not yet mined. */
  lemma NobodyWaitsAfterwards(hash: Hash, w: World, f: nat, e: Event)
    requires Inv(hash, w) && Legal(w, e) && (e == ReceiptLost(f) || e == Crash)
    requires f in w.flights && w.flights[f].stage == Sent
    ensures var after := Step(hash, w, e);
            && Inv(hash, after) && Legal(after, Mine(f)) && after.chain == w.chain
            && after.flights[f] == w.flights[f].(path := Abandoned)
            && (w.flights[f].key !in w.chain ==> Orphaned(Step(hash, after, Mine(f)), w.flights[f].key))
  {
    StepKeepsInv(hash, w, e);
    if w.flights[f].key !in w.chain {
      AbandonedCommitmentsAreOrphaned(hash, Step(hash, w, e), f);
    }
  }

  /** A transaction that nobody waits for any more orphans its commitment whenever it is mined. */
  lemma AbandonedCommitmentsAreOrphaned(hash: Hash, w: World, f: nat)
    requires Inv(hash, w) && Legal(w, Mine(f)) && w.flights[f].path.Abandoned? && w.flights[f].key !in w.chain
    ensures Opens(hash, Step(hash, w, Mine(f)).chain, w.flights[f].key, w.flights[f].vote)
    ensures Orphaned(Step(hash, w, Mine(f)), w.flights[f].key)
  {
    var key := w.flights[f].key;
    assert key in w.node.assignments && w.node.assignments[key].commit.Some? ==>
             Good(hash, w.chain, key, w.node.assignments[key].commit.value);
    forall g | g in w.flights && w.flights[g].key == key
      ensures w.flights[g].stage == Sent
    {
      assert FlightGood(hash, w.chain, w.flights[g]);
    }
  }

  /** A run that orphans a commitment: the process dies between the transaction and the write. */
  lemma CommitmentsCanBeOrphaned(hash: Hash, key: Key, salt: string)
    requires CanonicalSalt(salt)
    ensures var events := [HelperCommits(0, key, true, None, salt), Mine(0), HelperRemembers(0), Crash];
            && LegalRun(hash, START, events)
            && Opens(hash, Run(hash, START, events).chain, key, Vote(true, salt))
            && Orphaned(Run(hash, START, events), key)
  {
    var w1 := Step(hash, START, HelperCommits(0, key, true, None, salt));
    var w2 := Step(hash, w1, Mine(0));
    var w3 := Step(hash, w2, HelperRemembers(0));
    var w4 := Step(hash, w3, Crash);
    var e := [HelperCommits(0, key, true, None, salt), Mine(0), HelperRemembers(0), Crash];
    assert w1.flights == map[0 := Flight(key, Vote(true, salt), ByHelper, Sent)];
    assert w2.chain == map[key := hash(key.job, Vote(true, salt))];
    assert e[1..] == [Mine(0), HelperRemembers(0), Crash] && e[1..][1..] == [HelperRemembers(0), Crash];
    assert e[1..][1..][1..] == [Crash] && e[1..][1..][1..][1..] == [];
    assert LegalRun(hash, w4, []) && Run(hash, w4, []) == w4;
    assert LegalRun(hash, w3, [Crash]) && Run(hash, w3, [Crash]) == w4;
    assert LegalRun(hash, w2, e[1..][1..]) && Run(hash, w2, e[1..][1..]) == w4;
    assert LegalRun(hash, w1, e[1..]) && Run(hash, w1, e[1..]) == w4;
  }

  /**
   * The harder one: the process dies after sending, and the retry draws a new salt.  Then the old transaction is mined
   * first, the chain refuses the new one, and neither vote is kept.
   */
  lemma RetriesCanBeOvertaken(hash: Hash, key: Key, salt: string, other: string)
    requires CanonicalSalt(salt) && CanonicalSalt(other)
    ensures var events := [HelperCommits(0, key, true, None, salt), Crash, HelperCommits(1, key, true, None, other),
                           Mine(0), Mine(1)];
            && LegalRun(hash, START, events)
            && Opens(hash, Run(hash, START, events).chain, key, Vote(true, salt))
            && Run(hash, START, events).flights == map[]
            && Orphaned(Run(hash, START, events), key)
  {
    var w1 := Step(hash, START, HelperCommits(0, key, true, None, salt));
    var w2 := Step(hash, w1, Crash);
    var w3 := Step(hash, w2, HelperCommits(1, key, true, None, other));
    var w4 := Step(hash, w3, Mine(0));
    var w5 := Step(hash, w4, Mine(1));
    var e := [HelperCommits(0, key, true, None, salt), Crash, HelperCommits(1, key, true, None, other), Mine(0),
              Mine(1)];
    assert w1.flights == map[0 := Flight(key, Vote(true, salt), ByHelper, Sent)];
    assert w2.flights == map[0 := Flight(key, Vote(true, salt), Abandoned, Sent)];
    assert w3.flights == w2.flights[1 := Flight(key, Vote(true, other), ByHelper, Sent)];
    assert w4.chain == map[key := hash(key.job, Vote(true, salt))];
    assert w5.flights == map[];
    assert e[1..][1..][1..][1..] == [Mine(1)] && e[1..][1..][1..][1..][1..] == [];
    assert LegalRun(hash, w5, []) && Run(hash, w5, []) == w5;
    assert LegalRun(hash, w4, e[1..][1..][1..][1..]) && Run(hash, w4, e[1..][1..][1..][1..]) == w5;
    assert LegalRun(hash, w3, e[1..][1..][1..]) && Run(hash, w3, e[1..][1..][1..]) == w5;
    assert LegalRun(hash, w2, e[1..][1..]) && Run(hash, w2, e[1..][1..]) == w5;
    assert LegalRun(hash, w1, e[1..]) && Run(hash, w1, e[1..]) == w5;
  }

  /** With overrides a reveal opens the commitment exactly when the overrides repeat the committed vote. */
  lemma OverridesMustAgree(hash: Hash, w: World, key: Key, approve: Option<bool>, salt: Option<string>)
    requires Inv(hash, w) && CollisionFree(hash) && key in w.node.store && HelperVote(w.node, key, approve, salt).Some?
    ensures var sent := HelperVote(w.node, key, approve, salt).value;
            var vote := w.node.store[key].vote;
            Opens(hash, w.chain, key, sent) <==>
              (approve.Some? ==> approve.value == vote.approve)
                && (salt.Some? ==> NormaliseSalt(salt.value) == Some(vote.salt))
  {
    var vote := w.node.store[key].vote;
    assert Good(hash, w.chain, key, vote);
    assert key in w.node.commits ==> Good(hash, w.chain, key, w.node.commits[key]);
    NormalisedIsCanonical(vote.salt);
  }
}
