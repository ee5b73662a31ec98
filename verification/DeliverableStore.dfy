/** Selecting deliverables and grouping their contributions by contributor (agent-gateway/deliverableStore.ts). */
module DeliverableStore {
  import opened Collections
  import opened Grouping
  import opened Sorting

  datatype Contributor = Contributor(address: string, ens: Option<string>, role: Option<string>,
                                     caption: Option<string>, signature: Option<string>, payloadDigest: Option<string>)

  datatype Deliverable = Deliverable(id: string, jobId: string, agent: string, submittedAt: string,
                                     contributors: seq<Contributor>)

  /** `caption` stands for the source's label field. */
  datatype Contribution = Contribution(deliverableId: string, jobId: string, submittedAt: string, primary: bool,
                                       role: Option<string>, caption: Option<string>, signature: Option<string>,
                                       payloadDigest: Option<string>)

  /**
   * What the platform supplies: `later(a, b)` when a sorts strictly after b in the locale's order, and the checksummed
   * form of an address, None when it is not an address.
   */
  datatype Platform = Platform(later: (string, string) -> bool, checksum: string -> Option<string>)

  function Normalise(p: Platform, address: string): string {
    p.checksum(address).GetOr(Lower(address))
  }

  function KeyOf(p: Platform, address: string): string {
    Lower(Normalise(p, address))
  }

  // ----- Selection -----

  datatype Query = Query(jobId: Option<string>, agent: Option<string>, limit: Option<int>)

  predicate Matches(d: Deliverable, q: Query) {
    && (q.jobId.GetOr("") != "" ==> d.jobId == q.jobId.value)
    && (q.agent.GetOr("") != "" ==> Lower(d.agent) == Lower(q.agent.value))
  }

  /** A query asks for one job, for one agent whatever the case of its address, for both, or for anything. */
  lemma MatchingIsByJobAndAgent(d: Deliverable, q: Query)
    ensures Matches(d, q) <==>
              && (q.jobId in {None, Some(""), Some(d.jobId)})
              && (q.agent in {None, Some("")} || SameUpToCase(d.agent, q.agent.value))
  {
    LowerMeetsUpToCase(d.agent, q.agent.GetOr(""));
  }

  function Matching(records: seq<Deliverable>, q: Query): (kept: seq<Deliverable>)
    ensures forall d :: d in kept <==> d in records && Matches(d, q)
  {
    if records == [] then []
    else
      assert records == Front(records) + [Last(records)];
      if Matches(Last(records), q) then Matching(Front(records), q) + [Last(records)] else Matching(Front(records), q)
  }

  function LaterDeliverable(p: Platform): (Deliverable, Deliverable) -> bool {
    (a: Deliverable, b: Deliverable) => p.later(a.submittedAt, b.submittedAt)
  }

  function Select(records: seq<Deliverable>, q: Query, p: Platform): seq<Deliverable> {
    var sorted := StableSort(Matching(records, q), LaterDeliverable(p));
    if q.limit.Some? && q.limit.value >= 0 then Take(sorted, q.limit.value) else sorted
  }

  /** Records that match, latest first; what the limit leaves out is not later than what is selected. */
  lemma SelectsLatest(records: seq<Deliverable>, q: Query, p: Platform) returns (rest: seq<Deliverable>)
    requires StrictWeakOrder(p.later)
    ensures var s := Select(records, q, p);
            && multiset(s) + multiset(rest) == multiset(Matching(records, q))
            && Sorted(s, LaterDeliverable(p))
            && (forall a, b :: a in s && b in rest ==> !p.later(b.submittedAt, a.submittedAt))
            && (rest != [] ==> q.limit.Some? && |s| == q.limit.value)
            && (q.limit.Some? && q.limit.value >= 0 ==> |s| <= q.limit.value)
  {
    DeliverableOrder(p);
    SortSorts(Matching(records, q), LaterDeliverable(p));
    var all, s := StableSort(Matching(records, q), LaterDeliverable(p)), Select(records, q, p);
    rest := all[|s|..];
    assert all == s + rest;
    RestIsNotLater(s, rest, p);
  }

  lemma RestIsNotLater(s: seq<Deliverable>, rest: seq<Deliverable>, p: Platform)
    requires Sorted(s + rest, LaterDeliverable(p))
    ensures Sorted(s, LaterDeliverable(p))
    ensures forall a, b :: a in s && b in rest ==> !p.later(b.submittedAt, a.submittedAt)
  {
    var all := s + rest;
    forall i, j | 0 <= i < j < |s|
      ensures !LaterDeliverable(p)(s[j], s[i])
    {
      assert all[i] == s[i] && all[j] == s[j];
    }
    forall a, b | a in s && b in rest
      ensures !p.later(b.submittedAt, a.submittedAt)
    {
      var i :| 0 <= i < |s| && s[i] == a;
      var j :| 0 <= j < |rest| && rest[j] == b;
      assert !LaterDeliverable(p)(all[|s| + j], all[i]);
    }
  }

  lemma DeliverableOrder(p: Platform)
    requires StrictWeakOrder(p.later)
    ensures StrictWeakOrder(LaterDeliverable(p))
  {
    forall a, b, c
      ensures WeaklyOrdered(LaterDeliverable(p), a, b, c)
    {
      assert WeaklyOrdered(p.later, a.submittedAt, b.submittedAt, c.submittedAt);
    }
  }

  // ----- Entries -----

  /** One contribution on its way to its accumulator. */
  datatype Detail = Detail(address: string, contribution: Contribution, ens: Option<string>)

  function Primary(d: Deliverable): Detail {
    Detail(d.agent, Contribution(d.id, d.jobId, d.submittedAt, true, Some("primary"), None, None, None), None)
  }

  function Secondary(d: Deliverable, c: Contributor): Detail {
    Detail(c.address,
           Contribution(d.id, d.jobId, d.submittedAt, false, c.role, c.caption, c.signature, c.payloadDigest), c.ens)
  }

  function EntryOf(p: Platform, detail: Detail): Keyed<Detail> {
    Keyed(KeyOf(p, detail.address), detail)
  }

  /** The entries of the first `n` contributors of a deliverable. */
  function SecondaryEntries(p: Platform, d: Deliverable, n: nat): seq<Keyed<Detail>>
    requires n <= |d.contributors|
  {
    if n == 0 then [] else SecondaryEntries(p, d, n - 1) + [EntryOf(p, Secondary(d, d.contributors[n - 1]))]
  }

  function PrimaryEntries(p: Platform, d: Deliverable, includePrimary: bool): seq<Keyed<Detail>> {
    if includePrimary then [EntryOf(p, Primary(d))] else []
  }

  /** All contributions of the selected deliverables, in order, each keyed by its contributor. */
  function Emitted(p: Platform, selected: seq<Deliverable>, includePrimary: bool): seq<Keyed<Detail>> {
    if selected == [] then []
    else
      var d := Last(selected);
      Emitted(p, Front(selected), includePrimary) + PrimaryEntries(p, d, includePrimary)
        + SecondaryEntries(p, d, |d.contributors|)
  }

  /** What a deliverable says of its own agent, and of one of its contributors. */
  ghost predicate SaysOfAgent(p: Platform, d: Deliverable, e: Keyed<Detail>) {
    && e.key == KeyOf(p, d.agent) && e.item.address == d.agent && e.item.ens == None
    && e.item.contribution == Contribution(d.id, d.jobId, d.submittedAt, true, Some("primary"), None, None, None)
  }

  ghost predicate SaysOfContributor(p: Platform, d: Deliverable, i: int, e: Keyed<Detail>) {
    && 0 <= i < |d.contributors|
    && var c := d.contributors[i];
       && e.key == KeyOf(p, c.address) && e.item.address == c.address && e.item.ens == c.ens
       && e.item.contribution ==
            Contribution(d.id, d.jobId, d.submittedAt, false, c.role, c.caption, c.signature, c.payloadDigest)
  }

  /** How many entries the deliverables make: one for each contributor, and one for the agent where it is included. */
  function EntryCount(selected: seq<Deliverable>, includePrimary: bool): nat {
    if selected == [] then 0
    else EntryCount(Front(selected), includePrimary) + (if includePrimary then 1 else 0) + |Last(selected).contributors|
  }

  /** Every entry says what its deliverable says, and nothing that a deliverable says is missing. */
  lemma {:induction false} EntriesTellTheDeliverables(p: Platform, selected: seq<Deliverable>, includePrimary: bool)
    ensures |Emitted(p, selected, includePrimary)| == EntryCount(selected, includePrimary)
    ensures forall d, e :: d in selected && includePrimary && SaysOfAgent(p, d, e) ==>
              e in Emitted(p, selected, includePrimary)
    ensures forall d, i, e :: d in selected && SaysOfContributor(p, d, i, e) ==>
              e in Emitted(p, selected, includePrimary)
    ensures forall e :: e in Emitted(p, selected, includePrimary) ==> SaidBySome(p, selected, includePrimary, e)
  {
    if selected != [] {
      var front, last := Front(selected), Last(selected);
      assert selected == front + [last];
      EntriesTellTheDeliverables(p, front, includePrimary);
      SecondaryEntriesTell(p, last, |last.contributors|);
      forall e | e in Emitted(p, selected, includePrimary)
        ensures SaidBySome(p, selected, includePrimary, e)
      {
        if e in Emitted(p, front, includePrimary) {
          var d :| d in front && SaidBy(p, d, includePrimary, e);
          assert d in selected;
        } else {
          assert last in selected && SaidBy(p, last, includePrimary, e);
        }
      }
    }
  }

  ghost predicate SaidBy(p: Platform, d: Deliverable, includePrimary: bool, e: Keyed<Detail>) {
    (includePrimary && SaysOfAgent(p, d, e)) || exists i :: SaysOfContributor(p, d, i, e)
  }

  ghost predicate SaidBySome(p: Platform, selected: seq<Deliverable>, includePrimary: bool, e: Keyed<Detail>) {
    exists d :: d in selected && SaidBy(p, d, includePrimary, e)
  }

  lemma {:induction false} SecondaryEntriesTell(p: Platform, d: Deliverable, n: nat)
    requires n <= |d.contributors|
    ensures var entries := SecondaryEntries(p, d, n);
            && |entries| == n
            && forall i :: 0 <= i < n ==> SaysOfContributor(p, d, i, entries[i])
    ensures forall i, e :: 0 <= i < n && SaysOfContributor(p, d, i, e) ==> e in SecondaryEntries(p, d, n)
  {
    if n > 0 {
      SecondaryEntriesTell(p, d, n - 1);
      var before, entries := SecondaryEntries(p, d, n - 1), SecondaryEntries(p, d, n);
      forall i, e | 0 <= i < n && SaysOfContributor(p, d, i, e)
        ensures e in entries
      {
        if i == n - 1 {
          assert entries[n - 1] == e;
        } else {
          assert e in before;
        }
      }
    }
  }

  // ----- Accumulators -----

  datatype Accumulator = Accumulator(key: string, address: string, contributions: seq<Contribution>,
                                     ensNames: set<string>,
                                     roles: set<string>, captions: set<string>, signatures: set<string>,
                                     payloadDigests: set<string>)

  /** White space and line ends as ECMAScript has them. */
  predicate IsSpace(c: char) {
    || '\t' <= c <= '\r' || c == ' ' || c == '\U{00A0}' || c == '\U{1680}' || '\U{2000}' <= c <= '\U{200A}'
    || c == '\U{2028}' || c == '\U{2029}' || c == '\U{202F}' || c == '\U{205F}' || c == '\U{3000}' || c == '\U{FEFF}'
  }

  lemma SpacesAre(c: char)
    ensures c as int < 128 ==> (IsSpace(c) <==> c in " \t\n\r\U{000B}\U{000C}")
    ensures c as int >= 128 ==>
              (IsSpace(c) <==> c in "\U{00A0}\U{1680}\U{2028}\U{2029}\U{202F}\U{205F}\U{3000}\U{FEFF}"
                               || '\U{2000}' <= c <= '\U{200A}')
  {
  }

  function TrimStart(s: string): string {
    if s != [] && IsSpace(s[0]) then TrimStart(s[1..]) else s
  }

  function TrimEnd(s: string): string {
    if s != [] && IsSpace(Last(s)) then TrimEnd(Front(s)) else s
  }

  function Trim(s: string): string {
    TrimEnd(TrimStart(s))
  }

  /** Trimming cuts white space off both ends and nothing else. */
  lemma TrimCutsTheEnds(s: string) returns (i: nat, j: nat)
    ensures i <= j <= |s| && Trim(s) == s[i..j]
    ensures forall k :: 0 <= k < |s| && !(i <= k < j) ==> IsSpace(s[k])
    ensures i < j ==> !IsSpace(s[i]) && !IsSpace(s[j - 1])
  {
    i := TrimStartCuts(s);
    var n := TrimEndCuts(s[i..]);
    j := i + n;
    assert s[i..][..n] == s[i..j];
    assert forall k :: j <= k < |s| ==> s[k] == s[i..][k - i];
  }

  lemma {:induction false} TrimStartCuts(s: string) returns (i: nat)
    ensures i <= |s| && TrimStart(s) == s[i..] && (i < |s| ==> !IsSpace(s[i]))
    ensures forall k :: 0 <= k < i ==> IsSpace(s[k])
  {
    i := 0;
    if s != [] && IsSpace(s[0]) {
      var rest := TrimStartCuts(s[1..]);
      i := rest + 1;
      assert s[1..][rest..] == s[i..];
      assert forall k :: 1 <= k < i ==> s[k] == s[1..][k - 1];
    }
  }

  lemma {:induction false} TrimEndCuts(s: string) returns (n: nat)
    ensures n <= |s| && TrimEnd(s) == s[..n] && (n > 0 ==> !IsSpace(s[n - 1]))
    ensures forall k :: n <= k < |s| ==> IsSpace(s[k])
  {
    n := |s|;
    if s != [] && IsSpace(Last(s)) {
      n := TrimEndCuts(Front(s));
      assert Front(s)[..n] == s[..n];
    }
  }

  /** A given, non-empty value as a set. */
  function Given(x: Option<string>): set<string> {
    if x.GetOr("") == "" then {} else {x.value}
  }

  function GivenEns(ens: Option<string>): set<string> {
    Given(if ens.Some? then Some(Trim(ens.value)) else None)
  }

  function Start(key: string, address: string): Accumulator {
    Accumulator(key, address, [], {}, {}, {}, {}, {})
  }

  function Add(a: Accumulator, detail: Detail): Accumulator {
    var c := detail.contribution;
    a.(contributions := a.contributions + [c], ensNames := a.ensNames + GivenEns(detail.ens),
       roles := a.roles + Given(c.role),
       captions := a.captions + Given(c.caption), signatures := a.signatures + Given(c.signature),
       payloadDigests := a.payloadDigests + Given(c.payloadDigest))
  }

  function Find(accumulators: seq<Accumulator>, key: string): (i: nat)
    ensures i <= |accumulators|
    ensures i < |accumulators| ==> accumulators[i].key == key
  {
    FirstWith(accumulators, (a: Accumulator) => a.key, key)
  }

  function Appended(p: Platform, accumulators: seq<Accumulator>, detail: Detail): seq<Accumulator> {
    var key := KeyOf(p, detail.address);
    var i := Find(accumulators, key);
    if i < |accumulators| then accumulators[i := Add(accumulators[i], detail)]
    else accumulators + [Add(Start(key, Normalise(p, detail.address)), detail)]
  }

  method Collect(a: Accumulator, detail: Detail) returns (updated: Accumulator)
    ensures updated == Add(a, detail)
  {
    var c := detail.contribution;
    var ensNames, roles, captions, signatures, digests := a.ensNames, a.roles, a.captions, a.signatures,
                                                          a.payloadDigests;
    if detail.ens.Some? && |Trim(detail.ens.value)| > 0 {
      ensNames := ensNames + {Trim(detail.ens.value)};
    }
    assert ensNames == a.ensNames + GivenEns(detail.ens);
    if c.role.GetOr("") != "" {
      roles := roles + {c.role.value};
    }
    assert roles == a.roles + Given(c.role);
    if c.caption.GetOr("") != "" {
      captions := captions + {c.caption.value};
    }
    assert captions == a.captions + Given(c.caption);
    if c.signature.GetOr("") != "" {
      signatures := signatures + {c.signature.value};
    }
    assert signatures == a.signatures + Given(c.signature);
    if c.payloadDigest.GetOr("") != "" {
      digests := digests + {c.payloadDigest.value};
    }
    assert digests == a.payloadDigests + Given(c.payloadDigest);
    updated := Accumulator(a.key, a.address, a.contributions + [c], ensNames, roles, captions, signatures, digests);
  }

  /** The insertion-ordered map of accumulators. */
  class Accumulators {
    const platform: Platform
    var entries: seq<Accumulator>

    constructor (platform: Platform)
      ensures this.platform == platform && entries == []
    {
      this.platform, entries := platform, [];
    }

    method AppendContribution(detail: Detail)
      modifies this
      ensures entries == Appended(platform, old(entries), detail)
    {
      var address := Normalise(platform, detail.address);
      var key := Lower(address);
      var i := Find(entries, key);
      if i == |entries| {
        entries := entries + [Start(key, address)];
      }
      var a := Collect(entries[i], detail);
      entries := entries[i := a];
      assert i == |old(entries)| ==> entries == old(entries) + [a];
    }

    /** These contributions have been appended, and no others. */
    ghost predicate Holds(done: seq<Keyed<Detail>>)
      reads this
    {
      entries == Accumulated(platform, done)
    }

    /** The same, for a caller that has appended the entries `done` so far. */
    method AppendAfter(ghost done: seq<Keyed<Detail>>, detail: Detail) returns (ghost more: seq<Keyed<Detail>>)
      requires Holds(done)
      modifies this
      ensures more == done + [EntryOf(platform, detail)] && Holds(more)
    {
      AppendContribution(detail);
      more := done + [EntryOf(platform, detail)];
      AccumulatedMore(platform, done, EntryOf(platform, detail));
    }

    /** Appends the contributions of one deliverable; `before` are the entries appended so far. */
    method AppendDeliverable(record: Deliverable, includePrimary: bool, ghost before: seq<Keyed<Detail>>)
      requires Holds(before)
      modifies this
      ensures Holds(before + PrimaryEntries(platform, record, includePrimary)
                    + SecondaryEntries(platform, record, |record.contributors|))
    {
      ghost var done := before;
      if includePrimary {
        done := AppendAfter(done, Primary(record));
      }
      assert done == before + PrimaryEntries(platform, record, includePrimary);
      AppendContributors(record, done);
    }

    method AppendContributors(record: Deliverable, ghost before: seq<Keyed<Detail>>)
      requires Holds(before)
      modifies this
      ensures Holds(before + SecondaryEntries(platform, record, |record.contributors|))
    {
      ghost var done := before;
      NoEntries(platform, before, record);
      for j := 0 to |record.contributors|
        invariant Holds(done) && IsFollowedBy(platform, before, record, j, done)
      {
        OneMoreEntry(platform, before, record, j, done);
        done := AppendAfter(done, Secondary(record, record.contributors[j]));
      }
    }
  }

  /** `done` are the entries `before` and those of the first `j` contributors. */
  ghost predicate IsFollowedBy(p: Platform, before: seq<Keyed<Detail>>, d: Deliverable, j: nat,
                               done: seq<Keyed<Detail>>)
  {
    j <= |d.contributors| && done == before + SecondaryEntries(p, d, j)
  }

  lemma NoEntries(p: Platform, before: seq<Keyed<Detail>>, d: Deliverable)
    ensures IsFollowedBy(p, before, d, 0, before)
  {
  }

  lemma OneMoreEntry(p: Platform, before: seq<Keyed<Detail>>, d: Deliverable, j: nat, done: seq<Keyed<Detail>>)
    requires j < |d.contributors| && IsFollowedBy(p, before, d, j, done)
    ensures IsFollowedBy(p, before, d, j + 1, done + [EntryOf(p, Secondary(d, d.contributors[j]))])
  {
  }

  // ----- Accumulators are groups -----

  function AddAll(a: Accumulator, details: seq<Detail>): Accumulator {
    if details == [] then a else Add(AddAll(a, Front(details)), Last(details))
  }

  function AccumulatorOf(p: Platform, g: Group<Detail>): Accumulator
    requires g.members != []
  {
    AddAll(Start(g.key, Normalise(p, g.members[0].address)), g.members)
  }

  ghost predicate Mirrors(p: Platform, accumulators: seq<Accumulator>, groups: seq<Group<Detail>>) {
    |accumulators| == |groups| && forall i :: 0 <= i < |groups| ==> MirrorsAt(p, accumulators[i], groups[i])
  }

  ghost predicate MirrorsAt(p: Platform, a: Accumulator, g: Group<Detail>) {
    g.members != [] && a == AccumulatorOf(p, g)
  }

  lemma {:induction false} AddingKeepsKey(a: Accumulator, details: seq<Detail>)
    ensures AddAll(a, details).key == a.key && AddAll(a, details).address == a.address
    ensures AddAll(a, details).contributions == a.contributions + Contributions(details)
  {
    if details != [] {
      AddingKeepsKey(a, Front(details));
    }
  }

  function Contributions(details: seq<Detail>): seq<Contribution> {
    if details == [] then [] else Contributions(Front(details)) + [Last(details).contribution]
  }

  lemma {:induction false} SameFind(p: Platform, accumulators: seq<Accumulator>, groups: seq<Group<Detail>>,
                                    key: string)
    requires Mirrors(p, accumulators, groups)
    ensures Find(accumulators, key) == Place(groups, key)
  {
    if groups != [] {
      assert MirrorsAt(p, accumulators[0], groups[0]);
      AddingKeepsKey(Start(groups[0].key, Normalise(p, groups[0].members[0].address)), groups[0].members);
      if groups[0].key != key {
        assert Mirrors(p, accumulators[1..], groups[1..]);
        SameFind(p, accumulators[1..], groups[1..], key);
      }
    }
  }

  lemma AppendingMirrorsEntering(p: Platform, accumulators: seq<Accumulator>, groups: seq<Group<Detail>>,
                                 detail: Detail)
    requires Mirrors(p, accumulators, groups)
    ensures Mirrors(p, Appended(p, accumulators, detail), Enter(groups, KeyOf(p, detail.address), detail))
  {
    var key := KeyOf(p, detail.address);
    var after, groups' := Appended(p, accumulators, detail), Enter(groups, key, detail);
    SameFind(p, accumulators, groups, key);
    forall i | 0 <= i < |groups'|
      ensures MirrorsAt(p, after[i], groups'[i])
    {
      if i < |groups| {
        assert MirrorsAt(p, accumulators[i], groups[i]);
        if i == Place(groups, key) {
          assert Front(groups'[i].members) == groups[i].members;
        }
      } else {
        assert Front([detail]) == [];
        assert AddAll(Start(key, Normalise(p, detail.address)), []) == Start(key, Normalise(p, detail.address));
      }
    }
  }

  /** What the loop leaves after the given entries. */
  function Accumulated(p: Platform, entries: seq<Keyed<Detail>>): seq<Accumulator> {
    if entries == [] then [] else Appended(p, Accumulated(p, Front(entries)), Last(entries).item)
  }

  lemma AccumulatedMore(p: Platform, entries: seq<Keyed<Detail>>, e: Keyed<Detail>)
    ensures Accumulated(p, entries + [e]) == Appended(p, Accumulated(p, entries), e.item)
  {
    assert Front(entries + [e]) == entries;
  }

  ghost predicate KeyedByAddress(p: Platform, entries: seq<Keyed<Detail>>) {
    forall i :: 0 <= i < |entries| ==> entries[i] == EntryOf(p, entries[i].item)
  }

  lemma {:induction false} AccumulatorsAreGroups(p: Platform, entries: seq<Keyed<Detail>>)
    requires KeyedByAddress(p, entries)
    ensures Mirrors(p, Accumulated(p, entries), GroupAll(entries))
  {
    if entries != [] {
      AccumulatorsAreGroups(p, Front(entries));
      AppendingMirrorsEntering(p, Accumulated(p, Front(entries)), GroupAll(Front(entries)), Last(entries).item);
    }
  }

  lemma {:induction false} SecondaryAreKeyed(p: Platform, d: Deliverable, n: nat)
    requires n <= |d.contributors|
    ensures KeyedByAddress(p, SecondaryEntries(p, d, n))
  {
    if n > 0 {
      SecondaryAreKeyed(p, d, n - 1);
    }
  }

  lemma {:induction false} EmittedAreKeyed(p: Platform, selected: seq<Deliverable>, includePrimary: bool)
    ensures KeyedByAddress(p, Emitted(p, selected, includePrimary))
  {
    if selected != [] {
      EmittedAreKeyed(p, Front(selected), includePrimary);
      SecondaryAreKeyed(p, Last(selected), |Last(selected).contributors|);
    }
  }

  // ----- Summaries -----

  datatype Summary = Summary(key: string, address: string, contributionCount: nat, firstContributionAt: string,
                             lastContributionAt: string, contributions: seq<Contribution>, ensNames: set<string>,
                             roles: set<string>, captions: set<string>, signatures: set<string>,
                             payloadDigests: set<string>)

  function LaterContribution(p: Platform): (Contribution, Contribution) -> bool {
    (a: Contribution, b: Contribution) => p.later(a.submittedAt, b.submittedAt)
  }

  function LaterSummary(p: Platform): (Summary, Summary) -> bool {
    (a: Summary, b: Summary) => p.later(a.lastContributionAt, b.lastContributionAt)
  }

  function Summarise(p: Platform, a: Accumulator): Summary {
    var sorted := StableSort(a.contributions, LaterContribution(p));
    Summary(a.key, a.address, |sorted|, if sorted == [] then "" else Last(sorted).submittedAt,
            if sorted == [] then "" else sorted[0].submittedAt, sorted, a.ensNames, a.roles, a.captions, a.signatures,
            a.payloadDigests)
  }

  function SummariseAll(p: Platform, accumulators: seq<Accumulator>): seq<Summary> {
    if accumulators == [] then [] else SummariseAll(p, Front(accumulators)) + [Summarise(p, Last(accumulators))]
  }

  /**
   * A summary of exactly the members of one group: nothing is later than its last timestamp or earlier than its
   * first.
   */
  ghost predicate SummaryFits(p: Platform, entries: seq<Keyed<Detail>>, s: Summary) {
    var members := MembersOf(entries, s.key);
    && members != []
    && multiset(s.contributions) == multiset(Contributions(members))
    && s.contributionCount == |members|
    && s.address == Normalise(p, members[0].address)
    && (exists c :: c in s.contributions && c.submittedAt == s.firstContributionAt)
    && (exists c :: c in s.contributions && c.submittedAt == s.lastContributionAt)
    && (forall c :: c in s.contributions ==>
          !p.later(c.submittedAt, s.lastContributionAt) && !p.later(s.firstContributionAt, c.submittedAt))
    && (forall f: Field :: SummaryTags(s, f) == Collected(members, f))
  }

  /** The attributes that a summary collects as sets. */
  datatype Field = Ens | Role | Caption | Signature | PayloadDigest

  function Tag(d: Detail, f: Field): Option<string> {
    match f
    case Ens => if d.ens.Some? then Some(Trim(d.ens.value)) else None
    case Role => d.contribution.role
    case Caption => d.contribution.caption
    case Signature => d.contribution.signature
    case PayloadDigest => d.contribution.payloadDigest
  }

  function Tags(a: Accumulator, f: Field): set<string> {
    match f
    case Ens => a.ensNames
    case Role => a.roles
    case Caption => a.captions
    case Signature => a.signatures
    case PayloadDigest => a.payloadDigests
  }

  function SummaryTags(s: Summary, f: Field): set<string> {
    match f
    case Ens => s.ensNames
    case Role => s.roles
    case Caption => s.captions
    case Signature => s.signatures
    case PayloadDigest => s.payloadDigests
  }

  /** The non-empty values of an attribute among the details. */
  function Collected(details: seq<Detail>, f: Field): set<string> {
    set d | d in details && Tag(d, f).GetOr("") != "" :: Tag(d, f).value
  }

  lemma ContributionOrder(p: Platform)
    requires StrictWeakOrder(p.later)
    ensures StrictWeakOrder(LaterContribution(p)) && StrictWeakOrder(LaterSummary(p))
  {
    forall a, b, c
      ensures WeaklyOrdered(LaterContribution(p), a, b, c)
    {
      assert WeaklyOrdered(p.later, a.submittedAt, b.submittedAt, c.submittedAt);
    }
    forall a, b, c
      ensures WeaklyOrdered(LaterSummary(p), a, b, c)
    {
      assert WeaklyOrdered(p.later, a.lastContributionAt, b.lastContributionAt, c.lastContributionAt);
    }
  }

  lemma {:induction false} AddingCollects(a: Accumulator, details: seq<Detail>, f: Field)
    ensures Tags(AddAll(a, details), f) == Tags(a, f) + Collected(details, f)
  {
    if details != [] {
      AddingCollects(a, Front(details), f);
      CollectedMore(Front(details), Last(details), f);
      assert details == Front(details) + [Last(details)];
      assert Tags(AddAll(a, details), f) == Tags(AddAll(a, Front(details)), f) + Given(Tag(Last(details), f));
    }
  }

  lemma CollectedMore(details: seq<Detail>, d: Detail, f: Field)
    ensures Collected(details + [d], f) == Collected(details, f) + Given(Tag(d, f))
  {
  }

  lemma {:induction false} ContributionCount(details: seq<Detail>)
    ensures |Contributions(details)| == |details|
  {
    if details != [] {
      ContributionCount(Front(details));
    }
  }

  lemma SummaryKeepsTags(p: Platform, a: Accumulator, f: Field)
    ensures SummaryTags(Summarise(p, a), f) == Tags(a, f)
  {
  }

  lemma AccumulatorHolds(p: Platform, g: Group<Detail>, f: Field)
    requires g.members != []
    ensures var a := AccumulatorOf(p, g);
            && a.key == g.key && a.address == Normalise(p, g.members[0].address)
            && a.contributions == Contributions(g.members)
            && |a.contributions| == |g.members|
            && Tags(a, f) == Collected(g.members, f)
  {
    var start := Start(g.key, Normalise(p, g.members[0].address));
    AddingKeepsKey(start, g.members);
    AddingCollects(start, g.members, f);
    ContributionCount(g.members);
    assert [] + Contributions(g.members) == Contributions(g.members);
  }

  lemma SummaryOfGroup(p: Platform, entries: seq<Keyed<Detail>>, g: Group<Detail>)
    requires StrictWeakOrder(p.later) && GroupFits(entries, g)
    ensures SummaryFits(p, entries, Summarise(p, AccumulatorOf(p, g)))
    ensures Summarise(p, AccumulatorOf(p, g)).key == g.key
  {
    var a := AccumulatorOf(p, g);
    var s := Summarise(p, a);
    AccumulatorHolds(p, g, Ens);
    forall f: Field
      ensures SummaryTags(s, f) == Collected(g.members, f)
    {
      AccumulatorHolds(p, g, f);
      SummaryKeepsTags(p, a, f);
    }
    ContributionOrder(p);
    SortSorts(a.contributions, LaterContribution(p));
    TimesAreBounds(p, s.contributions);
  }

  lemma TimesAreBounds(p: Platform, sorted: seq<Contribution>)
    requires StrictWeakOrder(p.later) && sorted != [] && Sorted(sorted, LaterContribution(p))
    ensures forall c :: c in sorted ==>
              !p.later(c.submittedAt, sorted[0].submittedAt) && !p.later(Last(sorted).submittedAt, c.submittedAt)
    ensures sorted[0] in sorted && Last(sorted) in sorted
  {
    forall c | c in sorted
      ensures !p.later(c.submittedAt, sorted[0].submittedAt) && !p.later(Last(sorted).submittedAt, c.submittedAt)
    {
      var i :| 0 <= i < |sorted| && sorted[i] == c;
      assert WeaklyOrdered(p.later, c.submittedAt, c.submittedAt, c.submittedAt);
      assert i > 0 ==> !LaterContribution(p)(sorted[i], sorted[0]);
      assert i < |sorted| - 1 ==> !LaterContribution(p)(sorted[|sorted| - 1], sorted[i]);
    }
  }

  function AllContributions(summaries: seq<Summary>): seq<Contribution> {
    if summaries == [] then [] else AllContributions(Front(summaries)) + Last(summaries).contributions
  }

  lemma {:induction false} InsertKeepsContributions(s: seq<Summary>, x: Summary, before: (Summary, Summary) -> bool)
    ensures multiset(AllContributions(Insert(s, x, before))) ==
              multiset(AllContributions(s)) + multiset(x.contributions)
  {
    if s != [] && before(x, Last(s)) {
      InsertKeepsContributions(Front(s), x, before);
      assert Front(Insert(s, x, before)) == Insert(Front(s), x, before);
    } else {
      assert Front(s + [x]) == s;
    }
  }

  lemma {:induction false} SortKeepsContributions(s: seq<Summary>, before: (Summary, Summary) -> bool)
    ensures multiset(AllContributions(StableSort(s, before))) == multiset(AllContributions(s))
  {
    if s != [] {
      SortKeepsContributions(Front(s), before);
      InsertKeepsContributions(StableSort(Front(s), before), Last(s), before);
    }
  }

  lemma {:induction false} ContributionsConcat(a: seq<Detail>, b: seq<Detail>)
    ensures Contributions(a + b) == Contributions(a) + Contributions(b)
  {
    if b == [] {
      assert a + b == a;
    } else {
      assert Front(a + b) == a + Front(b);
      ContributionsConcat(a, Front(b));
    }
  }

  /** Summaries of groups hold together what the groups hold together. */
  lemma {:induction false} SummariesKeepMembers(p: Platform, accumulators: seq<Accumulator>, groups: seq<Group<Detail>>)
    requires StrictWeakOrder(p.later) && Mirrors(p, accumulators, groups)
    ensures multiset(AllContributions(SummariseAll(p, accumulators))) == multiset(Contributions(AllMembers(groups)))
  {
    if groups != [] {
      var a, g := Last(accumulators), Last(groups);
      assert MirrorsAt(p, a, g);
      assert Mirrors(p, Front(accumulators), Front(groups));
      SummariesKeepMembers(p, Front(accumulators), Front(groups));
      ContributionsConcat(AllMembers(Front(groups)), g.members);
      SummaryKeepsMembers(p, a, g);
      var front := SummariseAll(p, Front(accumulators));
      assert Front(front + [Summarise(p, a)]) == front;
    }
  }

  lemma SummaryKeepsMembers(p: Platform, a: Accumulator, g: Group<Detail>)
    requires StrictWeakOrder(p.later) && MirrorsAt(p, a, g)
    ensures multiset(Summarise(p, a).contributions) == multiset(Contributions(g.members))
  {
    AccumulatorHolds(p, g, Ens);
    ContributionOrder(p);
    SortSorts(a.contributions, LaterContribution(p));
  }

  /** Contributions of rearranged details are rearranged. */
  lemma {:induction false} ContributionsOfPermutation(a: seq<Detail>, b: seq<Detail>)
    requires multiset(a) == multiset(b)
    ensures multiset(Contributions(a)) == multiset(Contributions(b))
  {
    if a == [] {
      assert |multiset(b)| == 0;
    } else {
      FrontAndLast(a);
      assert a[|a| - 1] in multiset(a);
      assert Last(a) in multiset(b);
      var i :| 0 <= i < |b| && b[i] == Last(a);
      var rest := ContributionsWithout(b, i);
      assert multiset(Front(a)) + multiset{Last(a)} == multiset(a);
      Cancel(multiset(Front(a)), multiset(rest), Last(a));
      ContributionsOfPermutation(Front(a), rest);
    }
  }

  lemma Cancel(a: multiset<Detail>, b: multiset<Detail>, d: Detail)
    requires a + multiset{d} == b + multiset{d}
    ensures a == b
  {
    assert a == (a + multiset{d}) - multiset{d};
    assert b == (b + multiset{d}) - multiset{d};
  }

  /** Taking one detail out takes its contribution out. */
  lemma ContributionsWithout(b: seq<Detail>, i: nat) returns (rest: seq<Detail>)
    requires i < |b|
    ensures multiset(rest) + multiset{b[i]} == multiset(b)
    ensures multiset(Contributions(rest)) + multiset{b[i].contribution} == multiset(Contributions(b))
  {
    var before, after := b[..i], b[i + 1..];
    rest := before + after;
    assert b == (before + [b[i]]) + after;
    ContributionsConcat(before, after);
    ContributionsConcat(before + [b[i]], after);
    assert Front(before + [b[i]]) == before;
  }

  ghost predicate DistinctKeys(summaries: seq<Summary>) {
    forall i, j :: 0 <= i < j < |summaries| ==> summaries[i].key != summaries[j].key
  }

  /** The report: one summary a contributor, together holding every emitted contribution exactly once. */
  ghost predicate Reports(p: Platform, entries: seq<Keyed<Detail>>, summaries: seq<Summary>) {
    && multiset(AllContributions(summaries)) == multiset(Contributions(Items(entries)))
    && (forall s :: s in summaries ==> SummaryFits(p, entries, s))
    && (forall e :: e in entries ==> exists s :: s in summaries && s.key == e.key)
    && DistinctKeys(summaries)
    && Sorted(summaries, LaterSummary(p))
  }

  method Accumulate(p: Platform, selected: seq<Deliverable>, includePrimary: bool) returns (entries: seq<Accumulator>)
    ensures entries == Accumulated(p, Emitted(p, selected, includePrimary))
  {
    var accumulators := new Accumulators(p);
    ghost var emitted: seq<Keyed<Detail>> := [];
    for i := 0 to |selected|
      invariant accumulators.platform == p
      invariant emitted == Emitted(p, selected[..i], includePrimary)
      invariant accumulators.entries == Accumulated(p, emitted)
    {
      accumulators.AppendDeliverable(selected[i], includePrimary, emitted);
      EmittedMore(p, selected, i, includePrimary);
      emitted := emitted + PrimaryEntries(p, selected[i], includePrimary)
                 + SecondaryEntries(p, selected[i], |selected[i].contributors|);
    }
    assert selected[..|selected|] == selected;
    return accumulators.entries;
  }

  lemma EmittedMore(p: Platform, selected: seq<Deliverable>, i: nat, includePrimary: bool)
    requires i < |selected|
    ensures Emitted(p, selected[..i + 1], includePrimary) ==
            Emitted(p, selected[..i], includePrimary) + PrimaryEntries(p, selected[i], includePrimary)
            + SecondaryEntries(p, selected[i], |selected[i].contributors|)
  {
    var more := selected[..i + 1];
    assert Front(more) == selected[..i] && Last(more) == selected[i];
  }

  method ListSummaries(p: Platform, records: seq<Deliverable>, q: Query, includePrimary: bool)
    returns (summaries: seq<Summary>)
    requires StrictWeakOrder(p.later)
    ensures Reports(p, Emitted(p, Select(records, q, p), includePrimary), summaries)
  {
    var selected := Select(records, q, p);
    var accumulators := Accumulate(p, selected, includePrimary);
    summaries := SummariseEach(p, accumulators);
    EmittedAreKeyed(p, selected, includePrimary);
    SummariesReport(p, Emitted(p, selected, includePrimary));
    summaries := StableSort(summaries, LaterSummary(p));
  }

  method SummariseEach(p: Platform, accumulators: seq<Accumulator>) returns (summaries: seq<Summary>)
    ensures summaries == SummariseAll(p, accumulators)
  {
    summaries := [];
    for i := 0 to |accumulators|
      invariant summaries == SummariseAll(p, accumulators[..i])
    {
      assert Front(accumulators[..i + 1]) == accumulators[..i];
      summaries := summaries + [Summarise(p, accumulators[i])];
    }
    assert accumulators[..|accumulators|] == accumulators;
  }

  lemma {:induction false} SummariesAt(p: Platform, accumulators: seq<Accumulator>)
    ensures var s := SummariseAll(p, accumulators);
            |s| == |accumulators| && forall i :: 0 <= i < |s| ==> s[i] == Summarise(p, accumulators[i])
  {
    if accumulators != [] {
      SummariesAt(p, Front(accumulators));
    }
  }

  /** Keys stay distinct under any rearrangement. */
  lemma DistinctKeysPermute(a: seq<Summary>, b: seq<Summary>)
    requires DistinctKeys(a) && multiset(a) == multiset(b)
    ensures DistinctKeys(b)
  {
    forall i, j | 0 <= i < j < |b|
      ensures b[i].key != b[j].key
    {
      assert b[i] in multiset(a) && b[j] in multiset(a);
      var k :| 0 <= k < |a| && a[k] == b[i];
      var l :| 0 <= l < |a| && a[l] == b[j];
      if k == l {
        TwiceInSequence(b, i, j);
        OnceInDistinct(a, k);
      }
    }
  }

  lemma TwiceInSequence(b: seq<Summary>, i: nat, j: nat)
    requires i < j < |b| && b[i] == b[j]
    ensures multiset(b)[b[i]] >= 2
  {
    assert b == b[..i] + [b[i]] + b[i + 1..j] + [b[j]] + b[j + 1..];
  }

  lemma OnceInDistinct(a: seq<Summary>, k: nat)
    requires DistinctKeys(a) && k < |a|
    ensures multiset(a)[a[k]] == 1
  {
    assert a == a[..k] + [a[k]] + a[k + 1..];
    assert a[k] !in a[..k] && a[k] !in a[k + 1..];
  }

  lemma SummariesReport(p: Platform, entries: seq<Keyed<Detail>>)
    requires StrictWeakOrder(p.later) && KeyedByAddress(p, entries)
    ensures Reports(p, entries, StableSort(SummariseAll(p, Accumulated(p, entries)), LaterSummary(p)))
  {
    var accumulators, groups := Accumulated(p, entries), GroupAll(entries);
    var all := SummariseAll(p, accumulators);
    var sorted := StableSort(all, LaterSummary(p));
    AccumulatorsAreGroups(p, entries);
    GroupsPartition(entries);
    GroupingConserves(entries);
    SummariesKeepMembers(p, accumulators, groups);
    ContributionsOfPermutation(AllMembers(groups), Items(entries));
    SortKeepsContributions(all, LaterSummary(p));
    ContributionOrder(p);
    SortSorts(all, LaterSummary(p));
    SummariesAt(p, accumulators);
    forall i | 0 <= i < |all|
      ensures SummaryFits(p, entries, all[i]) && all[i].key == groups[i].key
    {
      assert MirrorsAt(p, accumulators[i], groups[i]);
      SummaryOfGroup(p, entries, groups[i]);
    }
    DistinctKeysPermute(all, sorted);
    forall s | s in sorted
      ensures SummaryFits(p, entries, s)
    {
      assert s in multiset(sorted);
      assert s in multiset(all);
    }
    forall e | e in entries
      ensures exists s :: s in sorted && s.key == e.key
    {
      assert HasKey(groups, e.key);
      var i :| 0 <= i < |groups| && groups[i].key == e.key;
      assert all[i] in multiset(all);
      assert all[i] in multiset(sorted);
    }
  }
}
