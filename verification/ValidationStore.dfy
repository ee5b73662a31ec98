/** The persistent commit records (agent-gateway/validationStore.ts) and salt normalisation (agent-gateway/utils.ts). */
module ValidationStore {
  import opened Collections

  /** A record's file name is made of the job and the lower-cased validator address. */
  datatype Key = Key(job: string, validator: string)

  /** What opens a commitment. */
  datatype Vote = Vote(approve: bool, salt: string)

  datatype Record = Record(vote: Vote, commitHash: string, commitTx: Option<string>, revealTx: Option<string>,
                           dispute: Option<string>, metadata: map<string, string>)

  /** A nullable field of an update: left alone, cleared, or set. */
  datatype Change = Keep | Clear | Set(value: string)

  datatype Update = Update(approve: Option<bool>, salt: Option<string>, commitHash: Option<string>,
                           commitTx: Option<string>,
                           revealTx: Option<string>, dispute: Change, metadata: Option<map<string, string>>)

  const NO_UPDATE := Update(None, None, None, None, None, Keep, None)

  predicate NonEmpty(s: Option<string>) {
    s.Some? && s.value != ""
  }

  function MergeRecords(existing: Record, update: Update): Record {
    Record(Vote(update.approve.GetOr(existing.vote.approve),
                if NonEmpty(update.salt) then update.salt.value else existing.vote.salt),
           if NonEmpty(update.commitHash) then update.commitHash.value else existing.commitHash,
           if NonEmpty(update.commitTx) then update.commitTx else existing.commitTx,
           if NonEmpty(update.revealTx) then update.revealTx else existing.revealTx,
           match update.dispute { case Keep => existing.dispute case Clear => None case Set(v) => Some(v) },
           if update.metadata.Some? then existing.metadata + update.metadata.value else existing.metadata)
  }

  /** None stands for the error about missing base fields. */
  function Updated(store: map<Key, Record>, key: Key, update: Update): Option<Record> {
    if key in store then
      Some(MergeRecords(store[key], update))
    else if update.approve.Some? && NonEmpty(update.salt) && NonEmpty(update.commitHash) then
      var base := Record(Vote(update.approve.value, update.salt.value), update.commitHash.value, None, None, None,
                         map[]);
      Some(MergeRecords(base, update))
    else
      None
  }

  /** The store afterwards; every caller swallows the error. */
  function Written(store: map<Key, Record>, key: Key, update: Update): map<Key, Record> {
    var record := Updated(store, key, update);
    if record.Some? then store[key := record.value] else store
  }

  /** What an update gives is stored, and what it does not give is as it was, or empty in a new record. */
  lemma UpdateIsStored(store: map<Key, Record>, key: Key, update: Update)
    requires key in store || (update.approve.Some? && NonEmpty(update.salt) && NonEmpty(update.commitHash))
    ensures key in Written(store, key, update)
    ensures var r := Written(store, key, update)[key];
            && (update.approve.Some? ==> r.vote.approve == update.approve.value)
            && (NonEmpty(update.salt) ==> r.vote.salt == update.salt.value)
            && (NonEmpty(update.commitHash) ==> r.commitHash == update.commitHash.value)
            && (NonEmpty(update.commitTx) ==> r.commitTx == update.commitTx)
            && (NonEmpty(update.revealTx) ==> r.revealTx == update.revealTx)
            && (update.dispute.Set? ==> r.dispute == Some(update.dispute.value))
            && (update.dispute.Clear? ==> r.dispute == None)
            && (update.metadata.Some? ==> forall k :: k in update.metadata.value ==>
                  k in r.metadata && r.metadata[k] == update.metadata.value[k])
    ensures key in store ==>
              var r, was := Written(store, key, update)[key], store[key];
              && (update.approve.None? ==> r.vote.approve == was.vote.approve)
              && (!NonEmpty(update.salt) ==> r.vote.salt == was.vote.salt)
              && (!NonEmpty(update.commitHash) ==> r.commitHash == was.commitHash)
              && (!NonEmpty(update.commitTx) ==> r.commitTx == was.commitTx)
              && (!NonEmpty(update.revealTx) ==> r.revealTx == was.revealTx)
              && (update.dispute.Keep? ==> r.dispute == was.dispute)
              && (forall k :: k in was.metadata && k !in update.metadata.GetOr(map[]) ==>
                    k in r.metadata && r.metadata[k] == was.metadata[k])
    ensures key !in store ==>
              var r := Written(store, key, update)[key];
              && (!NonEmpty(update.commitTx) ==> r.commitTx == None)
              && (!NonEmpty(update.revealTx) ==> r.revealTx == None)
              && (update.dispute.Keep? ==> r.dispute == None)
              && r.metadata == update.metadata.GetOr(map[])
    ensures forall k :: k in store && k != key ==> Written(store, key, update)[k] == store[k]
    ensures Written(store, key, update).Keys == store.Keys + {key}
  {
    assert map[] + update.metadata.GetOr(map[]) == update.metadata.GetOr(map[]);
  }

  /** Writing the same update again changes nothing. */
  lemma WritingTwice(store: map<Key, Record>, key: Key, update: Update)
    ensures Written(Written(store, key, update), key, update) == Written(store, key, update)
  {
    if update.metadata.Some? && key in store {
      var m, u := store[key].metadata, update.metadata.value;
      assert (m + u) + u == m + u;
    }
    if update.metadata.Some? {
      var u := update.metadata.value;
      assert (map[] + u) + u == map[] + u;
    }
  }

  /** An update without a vote leaves every stored vote alone and creates no record. */
  lemma OnlyVotesChangeVotes(store: map<Key, Record>, key: Key, update: Update)
    requires update.approve.None? && !NonEmpty(update.salt)
    ensures var store' := Written(store, key, update);
            store'.Keys == store.Keys && forall k :: k in store ==> store'[k].vote == store[k].vote
  {
  }

  // ----- Salts -----

  predicate HexDigit(c: char) {
    '0' <= c <= '9' || 'a' <= c <= 'f' || 'A' <= c <= 'F'
  }

  lemma HexDigitsAre(c: char)
    ensures HexDigit(c) <==> c in "0123456789abcdefABCDEF"
  {
  }

  /** "0x" and 32 bytes of lower-case hexadecimal digits, which is what random salts look like. */
  predicate CanonicalSalt(s: string) {
    |s| == 66 && s[..2] == "0x" && forall i :: 2 <= i < 66 ==> HexDigit(s[i]) && LowerChar(s[i]) == s[i]
  }

  function Prefixed(value: string): string {
    if |value| >= 2 && value[..2] == "0x" then value else "0x" + value
  }

  predicate HexFrom(s: string, from: nat) {
    forall i :: from <= i < |s| ==> HexDigit(s[i])
  }

  function NormaliseSalt(value: string): Option<string> {
    var candidate := Prefixed(value);
    if |candidate| == 66 && HexFrom(candidate, 2)
    then Some("0x" + Lower(candidate[2..]))
    else None
  }

  lemma {:induction false} LowerAt(s: string)
    ensures |Lower(s)| == |s| && forall i :: 0 <= i < |s| ==> Lower(s)[i] == LowerChar(s[i])
  {
    if s != [] {
      LowerAt(s[1..]);
    }
  }

  /** With or without the prefix, 64 hexadecimal digits are taken in lower case, and any other number is refused. */
  lemma PrefixIsOptional(digits: string)
    requires HexFrom(digits, 0)
    ensures NormaliseSalt(digits) == NormaliseSalt("0x" + digits) ==
            if |digits| == 64 then Some("0x" + Lower(digits)) else None
  {
    assert digits != [] ==> HexDigit(digits[0]);
    assert ("0x" + digits)[2..] == digits;
    assert forall i :: 2 <= i < |"0x" + digits| ==> ("0x" + digits)[i] == digits[i - 2];
    assert |digits| >= 2 ==> HexDigit(digits[1]) && digits[..2] != "0x";
  }

  /** Normalisation yields canonical salts, and the canonical salts are its fixed points. */
  lemma NormalisedIsCanonical(value: string)
    ensures NormaliseSalt(value).Some? ==> CanonicalSalt(NormaliseSalt(value).value)
    ensures NormaliseSalt(value) == Some(value) <==> CanonicalSalt(value)
  {
    var candidate := Prefixed(value);
    LowerAt(candidate[2..]);
    if NormaliseSalt(value).Some? {
      var s := NormaliseSalt(value).value;
      forall i | 2 <= i < 66
        ensures HexDigit(s[i]) && LowerChar(s[i]) == s[i]
      {
        assert s[i] == Lower(candidate[2..])[i - 2] == LowerChar(candidate[i]);
      }
    }
    if CanonicalSalt(value) {
      assert Lower(value[2..]) == value[2..];
      assert value == value[..2] + value[2..];
    }
  }
}
