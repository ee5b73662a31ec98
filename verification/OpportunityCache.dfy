/** The bounded cache of stored forecasts and its index by job (agent-gateway/opportunities.ts). */
module OpportunityCache {
  import opened Collections
  import opened Sorting

  /** `storedAt` is the instant of the ISO timestamp; `forecast` stands for the remaining fields. */
  datatype Entry = Entry(jobId: string, storedAt: int, forecast: string)

  function IndexOf(cache: seq<Entry>, jobId: string): (i: nat)
    ensures i <= |cache|
    ensures i < |cache| ==> cache[i].jobId == jobId
  {
    FirstWith(cache, (e: Entry) => e.jobId, jobId)
  }

  /** The index that loading builds: a later entry of a job replaces an earlier one. */
  function Indexed(cache: seq<Entry>): map<string, Entry> {
    if cache == [] then map[] else Indexed(Front(cache))[Last(cache).jobId := Last(cache)]
  }

  // ----- One recording, on any state -----

  function Overflow(cache: seq<Entry>, limit: nat): nat {
    if |cache| > limit then |cache| - limit else 0
  }

  /** The cache before trimming: a known job is refreshed in place, any other is appended. */
  function Refreshed(cache: seq<Entry>, byJob: map<string, Entry>, e: Entry): seq<Entry> {
    var i := IndexOf(cache, e.jobId);
    if e.jobId in byJob && i < |cache| then cache[i := e] else cache + [e]
  }

  predicate HasJobAt(cache: seq<Entry>, i: int, jobId: string) {
    0 <= i < |cache| && cache[i].jobId == jobId
  }

  /** A job that index and cache know keeps its place, the first if it has several; any other goes to the end. */
  ghost predicate RefreshedOrAdded(before: seq<Entry>, byJob: map<string, Entry>, e: Entry, after: seq<Entry>) {
    if e.jobId in byJob && exists i :: HasJobAt(before, i, e.jobId)
    then exists i :: HasJobAt(before, i, e.jobId) && after == before[i := e]
                     && forall j :: 0 <= j < i ==> !HasJobAt(before, j, e.jobId)
    else after == before + [e]
  }

  lemma RefreshesOrAdds(cache: seq<Entry>, byJob: map<string, Entry>, e: Entry)
    ensures RefreshedOrAdded(cache, byJob, e, Refreshed(cache, byJob, e))
  {
    var i := IndexOf(cache, e.jobId);
    NoneBeforeFirst(cache, (x: Entry) => x.jobId, e.jobId);
    assert forall j :: 0 <= j < i ==> !HasJobAt(cache, j, e.jobId);
    assert i < |cache| ==> HasJobAt(cache, i, e.jobId);
  }

  function CacheAfter(cache: seq<Entry>, byJob: map<string, Entry>, e: Entry, limit: nat): seq<Entry> {
    Suffix(Refreshed(cache, byJob, e), limit)
  }

  /** Trimming removes the jobs it cuts off from the index, but spares the job just recorded. */
  function IndexAfter(cache: seq<Entry>, byJob: map<string, Entry>, e: Entry, limit: nat): map<string, Entry> {
    var full := Refreshed(cache, byJob, e);
    byJob[e.jobId := e] - (JobSet(full[..Overflow(full, limit)]) - {e.jobId})
  }

  function Jobs(cache: seq<Entry>): (ids: seq<string>)
    ensures |ids| == |cache| && forall i {:trigger ids[i]} :: 0 <= i < |cache| ==> ids[i] == cache[i].jobId
  {
    if cache == [] then [] else Jobs(Front(cache)) + [Last(cache).jobId]
  }

  function JobSet(cache: seq<Entry>): set<string> {
    set id | id in Jobs(cache)
  }

  // ----- What the cache is meant to be -----

  ghost predicate UniqueJobs(cache: seq<Entry>) {
    NoDup(Jobs(cache))
  }

  /** Within the limit, one entry a job, and the index is exactly the map of the cache. */
  ghost predicate Good(cache: seq<Entry>, byJob: map<string, Entry>, limit: nat) {
    |cache| <= limit && UniqueJobs(cache) && byJob == Indexed(cache)
  }

  /** Job ids in the order of their insertions: recording a job inserts it unless it is among the last `limit`. */
  function Insertions(events: seq<Entry>, limit: nat): seq<string> {
    if events == [] then []
    else
      var earlier := Insertions(Front(events), limit);
      if Last(events).jobId in Suffix(earlier, limit) then earlier else earlier + [Last(events).jobId]
  }

  function Latest(events: seq<Entry>, jobId: string): Option<Entry> {
    if events == [] then None
    else if Last(events).jobId == jobId then Some(Last(events))
    else Latest(Front(events), jobId)
  }

  /** The cache holds the last `limit` jobs to be inserted, in that order, each with its latest forecast. */
  ghost predicate Represents(cache: seq<Entry>, events: seq<Entry>, limit: nat) {
    && Jobs(cache) == Suffix(Insertions(events, limit), limit)
    && HoldsLatest(cache, events)
  }

  ghost predicate HoldsLatest(cache: seq<Entry>, events: seq<Entry>) {
    forall i :: 0 <= i < |cache| ==> Latest(events, cache[i].jobId) == Some(cache[i])
  }

  // ----- The index of a sequence -----

  lemma {:induction false} IndexOfIsFirst(cache: seq<Entry>, j: nat)
    requires j < |cache|
    ensures IndexOf(cache, cache[j].jobId) <= j
  {
    if j > 0 {
      IndexOfIsFirst(cache[1..], j - 1);
    }
  }

  lemma KnownJobs(cache: seq<Entry>, jobId: string)
    ensures IndexOf(cache, jobId) < |cache| <==> jobId in Jobs(cache)
  {
    if jobId in Jobs(cache) {
      var i :| 0 <= i < |cache| && Jobs(cache)[i] == jobId;
      IndexOfIsFirst(cache, i);
    }
    assert IndexOf(cache, jobId) < |cache| ==> Jobs(cache)[IndexOf(cache, jobId)] == jobId;
  }

  lemma UniqueFront(cache: seq<Entry>)
    requires cache != [] && UniqueJobs(cache)
    ensures UniqueJobs(Front(cache)) && Last(cache).jobId !in Jobs(Front(cache))
  {
    var ids, front := Jobs(cache), Jobs(Front(cache));
    assert front == ids[..|front|] && ids[|front|] == Last(cache).jobId;
    forall i | 0 <= i < |front|
      ensures front[i] != Last(cache).jobId
    {
      assert ids[i] != ids[|front|];
    }
    forall i, j | 0 <= i < j < |front|
      ensures front[i] != front[j]
    {
      assert ids[i] != ids[j];
    }
  }

  /** The index knows exactly the jobs of the sequence, and maps each to its entry when jobs are unique. */
  lemma {:induction false} IndexedIsTheMap(cache: seq<Entry>, jobId: string)
    ensures jobId in Indexed(cache) <==> jobId in Jobs(cache)
    ensures jobId in Indexed(cache) <==> IndexOf(cache, jobId) < |cache|
    ensures UniqueJobs(cache) && jobId in Indexed(cache) ==> Indexed(cache)[jobId] == cache[IndexOf(cache, jobId)]
  {
    KnownJobs(cache, jobId);
    if cache != [] {
      var front := Front(cache);
      IndexedIsTheMap(front, jobId);
      if UniqueJobs(cache) && jobId in Indexed(cache) {
        UniqueFront(cache);
        KnownJobs(front, jobId);
        var ids, i, j := Jobs(cache), IndexOf(front, jobId), IndexOf(cache, jobId);
        assert ids[j] == jobId && ids[|front|] == Last(cache).jobId;
        if jobId == Last(cache).jobId {
          assert j == |front|;
        } else {
          assert Jobs(front)[i] == jobId && ids[i] == jobId;
          assert i == j;
        }
      }
    }
  }

  lemma {:induction false} IndexedUpdate(cache: seq<Entry>, i: nat, e: Entry)
    requires UniqueJobs(cache) && i < |cache| && cache[i].jobId == e.jobId
    ensures Indexed(cache[i := e]) == Indexed(cache)[e.jobId := e]
  {
    if i == |cache| - 1 {
      assert Front(cache[i := e]) == Front(cache);
    } else {
      UniqueFront(cache);
      IndexedUpdate(Front(cache), i, e);
      assert Front(cache[i := e]) == Front(cache)[i := e];
      assert Jobs(Front(cache))[i] == e.jobId;
    }
  }

  lemma {:induction false} IndexedDrop(cache: seq<Entry>, k: nat)
    requires UniqueJobs(cache) && k <= |cache|
    ensures Indexed(cache[k..]) == Indexed(cache) - JobSet(cache[..k])
  {
    if k == |cache| {
      assert cache[..k] == cache;
      forall id | id in Indexed(cache)
        ensures id in JobSet(cache)
      {
        IndexedIsTheMap(cache, id);
      }
    } else {
      UniqueFront(cache);
      IndexedDrop(Front(cache), k);
      var kept := cache[k..];
      assert Front(cache)[..k] == cache[..k];
      assert Front(kept) == Front(cache)[k..] && Last(kept) == Last(cache);
      JobsOfParts(Front(cache), k);
      assert Last(cache).jobId !in JobSet(cache[..k]);
    }
  }

  // ----- Recording -----

  /** The cache before trimming, when the index is that of the cache. */
  function Placed(cache: seq<Entry>, e: Entry): seq<Entry> {
    var i := IndexOf(cache, e.jobId);
    if i < |cache| then cache[i := e] else cache + [e]
  }

  lemma RefreshedIsPlaced(cache: seq<Entry>, e: Entry)
    ensures Refreshed(cache, Indexed(cache), e) == Placed(cache, e)
  {
    IndexedIsTheMap(cache, e.jobId);
  }

  lemma PlacedIsIndexed(cache: seq<Entry>, e: Entry)
    requires UniqueJobs(cache)
    ensures UniqueJobs(Placed(cache, e)) && Indexed(Placed(cache, e)) == Indexed(cache)[e.jobId := e]
  {
    var i := IndexOf(cache, e.jobId);
    if i < |cache| {
      IndexedUpdate(cache, i, e);
      assert Jobs(cache[i := e]) == Jobs(cache);
    } else {
      IndexedIsTheMap(cache, e.jobId);
      assert Front(cache + [e]) == cache;
      NoDupConcat(Jobs(cache), [e.jobId]);
    }
  }

  /** The place that recording gives to the job is cut off by trimming. */
  predicate CutOff(cache: seq<Entry>, jobId: string, limit: nat) {
    limit < |cache| && IndexOf(cache, jobId) < |cache| - limit
  }

  lemma CutOffIsEarly(cache: seq<Entry>, jobId: string, limit: nat)
    ensures CutOff(cache, jobId, limit) <==> exists i :: 0 <= i < |cache| - limit && cache[i].jobId == jobId
  {
    forall i | 0 <= i < |cache| - limit && cache[i].jobId == jobId
      ensures CutOff(cache, jobId, limit)
    {
      IndexOfIsFirst(cache, i);
    }
  }

  /**
   * From any file with one entry a job, also over the limit (the limit is read from the environment when the process
   * starts, so it may have been lowered): the forecast just recorded stays in the cache, and the state is good, exactly
   * when the job does not sit at one of the places that trimming cuts off.  The index always keeps the job.
   */
  lemma NewestSurvivesUnlessCutOff(cache: seq<Entry>, e: Entry, limit: nat)
    requires UniqueJobs(cache) && limit >= 1
    ensures CutOff(cache, e.jobId, limit) <==> exists i :: 0 <= i < |cache| - limit && cache[i].jobId == e.jobId
    ensures e in CacheAfter(cache, Indexed(cache), e, limit) <==> !CutOff(cache, e.jobId, limit)
    ensures Good(CacheAfter(cache, Indexed(cache), e, limit), IndexAfter(cache, Indexed(cache), e, limit), limit)
            <==> !CutOff(cache, e.jobId, limit)
    ensures e.jobId in IndexAfter(cache, Indexed(cache), e, limit)
  {
    SurvivesUnlessCutOff(cache, e, limit);
    CutOffIsEarly(cache, e.jobId, limit);
  }

  lemma SurvivesUnlessCutOff(cache: seq<Entry>, e: Entry, limit: nat)
    requires UniqueJobs(cache) && limit >= 1
    ensures e in CacheAfter(cache, Indexed(cache), e, limit) <==> !CutOff(cache, e.jobId, limit)
    ensures Good(CacheAfter(cache, Indexed(cache), e, limit), IndexAfter(cache, Indexed(cache), e, limit), limit)
            <==> !CutOff(cache, e.jobId, limit)
    ensures e.jobId in IndexAfter(cache, Indexed(cache), e, limit)
  {
    var full, p := Placed(cache, e), IndexOf(cache, e.jobId);
    TrimmedIsPlaced(cache, e, limit);
    NewestAfterTrimming(full, p, limit);
  }

  /** Recording in terms of the place that it gives to the job. */
  lemma TrimmedIsPlaced(cache: seq<Entry>, e: Entry, limit: nat)
    requires UniqueJobs(cache) && limit >= 1
    ensures var full, p := Placed(cache, e), IndexOf(cache, e.jobId);
            var over := Overflow(full, limit);
            && UniqueJobs(full) && p < |full| && full[p] == e
            && (CutOff(cache, e.jobId, limit) <==> p < over)
            && CacheAfter(cache, Indexed(cache), e, limit) == full[over..]
            && IndexAfter(cache, Indexed(cache), e, limit) == Indexed(full) - (JobSet(full[..over]) - {e.jobId})
            && e.jobId in IndexAfter(cache, Indexed(cache), e, limit)
  {
    RefreshedIsPlaced(cache, e);
    PlacedIsIndexed(cache, e);
  }

  /** A witness: with the limit lowered to one, refreshing the older of two jobs evicts it at once. */
  lemma LoweredLimitLosesNewest()
    ensures var file, e := [Entry("a", 0, "old"), Entry("b", 1, "old")], Entry("a", 2, "new");
            && UniqueJobs(file)
            && CacheAfter(file, Indexed(file), e, 1) == [Entry("b", 1, "old")]
            && "a" in IndexAfter(file, Indexed(file), e, 1) && IndexAfter(file, Indexed(file), e, 1)["a"] == e
  {
    var file, e := [Entry("a", 0, "old"), Entry("b", 1, "old")], Entry("a", 2, "new");
    assert Front(file) == [file[0]] && Front([file[0]]) == [];
    assert Jobs([file[0]]) == ["a"] && Jobs(file) == ["a", "b"];
    assert IndexOf(file, "a") == 0;
    IndexedIsTheMap(file, "a");
    assert Refreshed(file, Indexed(file), e) == [e, file[1]];
    assert Jobs([e, file[1]][..1]) == ["a"];
  }

  lemma NewestAfterTrimming(full: seq<Entry>, p: nat, limit: nat)
    requires UniqueJobs(full) && p < |full|
    ensures var over, e := Overflow(full, limit), full[p];
            && (e in full[over..] <==> p >= over)
            && (Good(full[over..], Indexed(full) - (JobSet(full[..over]) - {e.jobId}), limit) <==> p >= over)
  {
    TrimmingKeepsPlace(full, p, Overflow(full, limit));
    assert Jobs(full)[p] == full[p].jobId;
    TrimmingKeepsGood(full, full[p].jobId, limit);
  }

  /** Trimming a cache that its index matches, sparing one job. */
  lemma TrimmingKeepsGood(full: seq<Entry>, spared: string, limit: nat)
    requires UniqueJobs(full) && spared in Jobs(full)
    ensures var over := Overflow(full, limit);
            Good(full[over..], Indexed(full) - (JobSet(full[..over]) - {spared}), limit) <==>
              spared in Jobs(full[over..])
  {
    var over := Overflow(full, limit);
    var after, cut := full[over..], JobSet(full[..over]);
    JobsSplit(full, over, spared);
    IndexedDrop(full, over);
    if spared in Jobs(after) {
      assert cut - {spared} == cut;
    } else {
      IndexedIsTheMap(full, spared);
      IndexedIsTheMap(after, spared);
      assert spared in Indexed(full) - (cut - {spared}) && spared !in Indexed(after);
    }
  }

  lemma JobsSplit(full: seq<Entry>, over: nat, jobId: string)
    requires UniqueJobs(full) && jobId in Jobs(full) && over <= |full|
    ensures UniqueJobs(full[over..])
    ensures jobId in Jobs(full[over..]) <==> jobId !in JobSet(full[..over])
  {
    JobsOfParts(full, over);
    NoDupSplit(Jobs(full), over, jobId);
  }

  lemma JobsOfParts(full: seq<Entry>, over: nat)
    requires over <= |full|
    ensures Jobs(full[over..]) == Jobs(full)[over..] && Jobs(full[..over]) == Jobs(full)[..over]
  {
    assert full == full[..over] + full[over..];
    JobsConcat(full[..over], full[over..]);
  }

  lemma {:induction false} JobsConcat(a: seq<Entry>, b: seq<Entry>)
    ensures Jobs(a + b) == Jobs(a) + Jobs(b)
  {
    if b == [] {
      assert a + b == a;
    } else {
      JobsConcat(a, Front(b));
      assert Front(a + b) == a + Front(b);
    }
  }

  lemma NoDupSplit(ids: seq<string>, over: nat, x: string)
    requires NoDup(ids) && x in ids && over <= |ids|
    ensures NoDup(ids[over..])
    ensures x in ids[over..] <==> x !in ids[..over]
  {
    var p :| 0 <= p < |ids| && ids[p] == x;
    assert p >= over ==> ids[over..][p - over] == x;
    assert p < over ==> ids[..over][p] == x;
  }

  /** The entry at place `p` survives cutting off the first `over` exactly when it is not among them. */
  lemma TrimmingKeepsPlace(full: seq<Entry>, p: nat, over: nat)
    requires UniqueJobs(full) && p < |full| && over <= |full|
    ensures full[p] in full[over..] <==> p >= over
    ensures full[p].jobId in Jobs(full[over..]) <==> p >= over
    ensures full[p].jobId in JobSet(full[..over]) <==> p < over
  {
    var after, before, ids := full[over..], full[..over], Jobs(full);
    forall k | 0 <= k < |after| && p < over
      ensures after[k].jobId != full[p].jobId && Jobs(after)[k] != full[p].jobId
    {
      assert ids[over + k] != ids[p];
    }
    forall k | 0 <= k < |before| && p >= over
      ensures Jobs(before)[k] != full[p].jobId
    {
      assert ids[k] != ids[p];
    }
    if p >= over {
      assert after[p - over] == full[p] && Jobs(after)[p - over] == full[p].jobId;
    } else {
      assert Jobs(before)[p] == full[p].jobId;
    }
  }

  /** From a good state every recording leads to a good state that holds the newest forecast. */
  lemma RecordingKeepsGood(cache: seq<Entry>, byJob: map<string, Entry>, e: Entry, limit: nat)
    requires Good(cache, byJob, limit) && limit >= 1
    ensures Good(CacheAfter(cache, byJob, e, limit), IndexAfter(cache, byJob, e, limit), limit)
    ensures e in CacheAfter(cache, byJob, e, limit)
  {
    SurvivesUnlessCutOff(cache, e, limit);
  }

  lemma LatestOfMore(events: seq<Entry>, e: Entry, jobId: string)
    ensures Latest(events + [e], jobId) == if e.jobId == jobId then Some(e) else Latest(events, jobId)
  {
    assert Front(events + [e]) == events;
  }

  lemma JobsOfSuffix(cache: seq<Entry>, limit: nat)
    ensures Jobs(Suffix(cache, limit)) == Suffix(Jobs(cache), limit)
  {
  }

  lemma InsertionsAfter(cache: seq<Entry>, events: seq<Entry>, e: Entry, limit: nat)
    requires limit >= 1 && |cache| <= limit && Jobs(cache) == Suffix(Insertions(events, limit), limit)
    ensures Jobs(Suffix(Placed(cache, e), limit)) == Suffix(Insertions(events + [e], limit), limit)
  {
    assert Front(events + [e]) == events;
    KnownJobs(cache, e.jobId);
    var i := IndexOf(cache, e.jobId);
    if i < |cache| {
      assert Jobs(cache[i := e]) == Jobs(cache);
    } else {
      SuffixAppend(Insertions(events, limit), e.jobId, limit);
      JobsOfSuffix(cache + [e], limit);
      assert Front(cache + [e]) == cache;
    }
  }

  /** Refreshing in place does not change the order of eviction: insertions alone decide what is kept. */
  lemma RecordingIsRepresented(cache: seq<Entry>, byJob: map<string, Entry>, events: seq<Entry>, e: Entry, limit: nat)
    requires Good(cache, byJob, limit) && limit >= 1 && Represents(cache, events, limit)
    ensures Represents(CacheAfter(cache, byJob, e, limit), events + [e], limit)
  {
    RefreshedIsPlaced(cache, e);
    InsertionsAfter(cache, events, e, limit);
    var after := CacheAfter(cache, byJob, e, limit);
    forall k | 0 <= k < |after|
      ensures Latest(events + [e], after[k].jobId) == Some(after[k])
    {
      LatestOfMore(events, e, after[k].jobId);
      KeptOrNew(cache, e, after, k, limit);
    }
  }

  lemma StateAfterOverlongFile(cache: seq<Entry>, e: Entry, limit: nat)
    requires UniqueJobs(cache) && limit >= 1
    ensures var after := CacheAfter(cache, Indexed(cache), e, limit);
            var index := IndexAfter(cache, Indexed(cache), e, limit);
            if CutOff(cache, e.jobId, limit) then UniqueJobs(after) && |after| <= limit ==> index != Indexed(after)
            else Saved(after, after, limit) && index == Indexed(after)
  {
    SurvivesUnlessCutOff(cache, e, limit);
    if !CutOff(cache, e.jobId, limit) {
      FileRepresentsItself(CacheAfter(cache, Indexed(cache), e, limit), limit);
    }
  }

  lemma StateAfterRecording(cache: seq<Entry>, byJob: map<string, Entry>, events: seq<Entry>, e: Entry, limit: nat,
                            cache': seq<Entry>, byJob': map<string, Entry>)
    requires limit >= 1 && Saved(cache, events, limit) && byJob == Indexed(cache)
    requires cache' == CacheAfter(cache, byJob, e, limit) && byJob' == IndexAfter(cache, byJob, e, limit)
    ensures Saved(cache', events + [e], limit) && byJob' == Indexed(cache') && e in cache'
  {
    RecordingKeepsGood(cache, byJob, e, limit);
    RecordingIsRepresented(cache, byJob, events, e, limit);
  }

  lemma KeptOrNew(cache: seq<Entry>, e: Entry, after: seq<Entry>, k: nat, limit: nat)
    requires UniqueJobs(cache) && after == Suffix(Placed(cache, e), limit) && k < |after|
    ensures after[k] == e || (after[k] in cache && after[k].jobId != e.jobId)
  {
    PlacedIsIndexed(cache, e);
    var full, p := Placed(cache, e), IndexOf(cache, e.jobId);
    var j := |full| - |after| + k;
    assert after[k] == full[j] && full[p] == e;
    if j != p {
      assert full[j] == cache[j];
      assert Jobs(full)[j] != Jobs(full)[p];
    }
  }

  /** A file within the limit is its own history. */
  lemma {:induction false} FileRepresentsItself(file: seq<Entry>, limit: nat)
    requires UniqueJobs(file) && |file| <= limit
    ensures Represents(file, file, limit) && Insertions(file, limit) == Jobs(file)
  {
    if file != [] {
      var front := Front(file);
      UniqueFront(file);
      FileRepresentsItself(front, limit);
      forall i | 0 <= i < |file|
        ensures Latest(file, file[i].jobId) == Some(file[i])
      {
        if i < |front| {
          assert front[i] == file[i] && Jobs(front)[i] == file[i].jobId;
        }
      }
    }
  }

  // ----- The module state -----

  /** What is in the file: within the limit, one entry a job, and the last insertions of the history. */
  ghost predicate Saved(file: seq<Entry>, events: seq<Entry>, limit: nat) {
    |file| <= limit && UniqueJobs(file) && Represents(file, events, limit)
  }

  class Cache {
    const limit: nat
    var loaded: bool
    var cache: seq<Entry>
    var byJob: map<string, Entry>
    var file: seq<Entry>
    ghost var events: seq<Entry>  // the file that a healthy history began with, then every forecast recorded

    ghost predicate Valid()
      reads this
    {
      limit >= 1 && (loaded ==> cache == file)
    }

    /** The index in memory, or the one that loading would build. */
    ghost function Index(): map<string, Entry>
      reads this
    {
      if loaded then byJob else Indexed(file)
    }

    ghost predicate Healthy()
      reads this
    {
      Saved(file, events, limit) && Index() == Indexed(file)
    }

    /** Any file may be found when the process starts; one within the limit, with one entry a job, is healthy. */
    constructor (limit: nat, file: seq<Entry>)
      requires limit >= 1
      ensures Valid() && !loaded && this.limit == limit && this.file == file && events == file
      ensures Healthy() <==> |file| <= limit && UniqueJobs(file)
    {
      this.limit, this.file, events := limit, file, file;
      loaded, cache, byJob := false, [], map[];
      new;
      if |file| <= limit && UniqueJobs(file) {
        FileRepresentsItself(file, limit);
      }
    }

    method EnsureLoaded()
      requires Valid()
      modifies this
      ensures Valid() && loaded && file == old(file) && events == old(events) && byJob == old(Index())
    {
      if loaded {
        return;
      }
      cache, byJob := file, map[];
      for i := 0 to |cache|
        invariant cache == file == old(file) && events == old(events) && loaded == old(loaded)
        invariant byJob == Indexed(cache[..i])
      {
        assert Front(cache[..i + 1]) == cache[..i];
        byJob := byJob[cache[i].jobId := cache[i]];
      }
      assert cache[..|cache|] == cache;
      loaded := true;
    }

    /**
     * From a healthy state the new one holds the last `limit` insertions of the whole history, the newest among them.
     * From any loaded file with one entry a job the new state is healthy exactly when the job is not cut off.
     */
    method Record(jobId: string, forecast: string, now: int)
      requires Valid()
      modifies this
      ensures Valid() && loaded
      ensures var e := Entry(jobId, now, forecast);
              && file == cache == CacheAfter(old(file), old(Index()), e, limit)
              && byJob == IndexAfter(old(file), old(Index()), e, limit)
              && (old(Healthy()) ==> Healthy() && events == old(events) + [e] && e in cache)
      ensures UniqueJobs(old(file)) && old(Index()) == Indexed(old(file)) ==>
                (Healthy() <==> !CutOff(old(file), jobId, limit))
    {
      EnsureLoaded();
      var stored := Entry(jobId, now, forecast);
      ghost var healthy, cache0, byJob0 := Healthy(), cache, byJob;
      Upsert(stored);
      Trim(jobId);
      file := cache;
      if healthy {
        StateAfterRecording(cache0, byJob0, events, stored, limit, cache, byJob);
        events := events + [stored];
      } else if UniqueJobs(cache0) && byJob0 == Indexed(cache0) {
        StateAfterOverlongFile(cache0, stored, limit);
        if !CutOff(cache0, jobId, limit) {
          events := cache;
        }
      }
    }

    /** Refreshes a known job in place, and appends any other. */
    method Upsert(stored: Entry)
      modifies this`cache, this`byJob
      ensures cache == Refreshed(old(cache), old(byJob), stored)
      ensures RefreshedOrAdded(old(cache), old(byJob), stored, cache)
      ensures byJob == old(byJob)[stored.jobId := stored]
    {
      RefreshesOrAdds(cache, byJob, stored);
      if stored.jobId in byJob {
        var index := IndexOf(cache, stored.jobId);
        if index < |cache| {
          cache := cache[index := stored];
        } else {
          cache := cache + [stored];
        }
      } else {
        cache := cache + [stored];
      }
      byJob := byJob[stored.jobId := stored];
    }

    /** Cuts the oldest entries over the limit off the cache and the index, sparing one job in the index. */
    method Trim(spared: string)
      modifies this`cache, this`byJob
      ensures cache == Suffix(old(cache), limit)
      ensures byJob == old(byJob) - (JobSet(old(cache)[..Overflow(old(cache), limit)]) - {spared})
    {
      if |cache| > limit {
        var overflow := |cache| - limit;
        var removed := cache[..overflow];
        cache := cache[overflow..];
        for i := 0 to |removed|
          invariant cache == old(cache)[overflow..]
          invariant byJob == old(byJob) - (JobSet(removed[..i]) - {spared})
        {
          assert Front(removed[..i + 1]) == removed[..i];
          if removed[i].jobId != spared {
            byJob := byJob - {removed[i].jobId};
          }
        }
        assert removed[..|removed|] == removed;
      }
    }

    /** The latest forecast of the job, if the job is among the last `limit` to be inserted. */
    method Get(jobId: string) returns (found: Option<Entry>)
      requires Valid()
      modifies this
      ensures Valid() && loaded && file == old(file) && events == old(events) && byJob == old(Index())
      ensures found.Some? <==> jobId in byJob
      ensures found.Some? ==> found.value == byJob[jobId]
      ensures Healthy() ==>
                found == if jobId in Suffix(Insertions(events, limit), limit) then Latest(events, jobId) else None
    {
      EnsureLoaded();
      IndexedIsTheMap(cache, jobId);
      found := if jobId in byJob then Some(byJob[jobId]) else None;
      if Healthy() && found.Some? {
        assert cache[IndexOf(cache, jobId)] == found.value;
      }
    }

    /** Newest first; a positive limit keeps that many. */
    method List(count: Option<int>) returns (listed: seq<Entry>)
      requires Valid()
      modifies this
      ensures Valid() && loaded && file == old(file) && events == old(events) && byJob == old(Index())
      ensures IsNewestFirst(cache, listed, if count.Some? && count.value > 0 then count.value else |cache|)
    {
      EnsureLoaded();
      var records := StableSort(cache, NewestFirst());
      listed := if count.Some? && count.value > 0 then Take(records, count.value) else records;
      ghost var n := if count.Some? && count.value > 0 then count.value else |cache|;
      PrefixIsNewestFirst(cache, n);
      assert listed == Take(records, n);
    }

    /** Forgets what is in memory, an inexact index included; the file keeps its entries. */
    method Clear()
      requires Valid()
      modifies this
      ensures Valid() && !loaded && file == old(file) && events == old(events) && Index() == Indexed(file)
    {
      loaded, cache, byJob := false, [], map[];
    }
  }

  function NewestFirst(): (Entry, Entry) -> bool {
    (a: Entry, b: Entry) => a.storedAt > b.storedAt
  }

  lemma NewestFirstIsOrder()
    ensures StrictWeakOrder(NewestFirst())
  {
    forall a, b, c
      ensures WeaklyOrdered(NewestFirst(), a, b, c)
    {
    }
  }

  /** At most `count` records, newest first, and none that is left out is newer than one that is listed. */
  ghost predicate IsNewestFirst(cache: seq<Entry>, listed: seq<Entry>, count: nat) {
    && |listed| == Min(count, |cache|)
    && (forall i, j :: 0 <= i < j < |listed| ==> listed[i].storedAt >= listed[j].storedAt)
    && exists rest: seq<Entry> :: multiset(listed) + multiset(rest) == multiset(cache) && NoneNewer(listed, rest)
  }

  ghost predicate NoneNewer(listed: seq<Entry>, rest: seq<Entry>) {
    forall x, y :: x in listed && y in rest ==> x.storedAt >= y.storedAt
  }

  lemma PrefixIsNewestFirst(cache: seq<Entry>, count: nat)
    ensures |StableSort(cache, NewestFirst())| == |cache|
    ensures IsNewestFirst(cache, Take(StableSort(cache, NewestFirst()), count), count)
  {
    NewestFirstIsOrder();
    SortSorts(cache, NewestFirst());
    var records := StableSort(cache, NewestFirst());
    var listed := Take(records, count);
    var rest := records[|listed|..];
    assert records == listed + rest;
    SortedSplit(listed, rest);
  }

  lemma SortedSplit(listed: seq<Entry>, rest: seq<Entry>)
    requires Sorted(listed + rest, NewestFirst())
    ensures NoneNewer(listed, rest)
    ensures forall i, j :: 0 <= i < j < |listed| ==> listed[i].storedAt >= listed[j].storedAt
    ensures multiset(listed) + multiset(rest) == multiset(listed + rest)
  {
    var all := listed + rest;
    forall x, y | x in listed && y in rest
      ensures x.storedAt >= y.storedAt
    {
      var i :| 0 <= i < |listed| && listed[i] == x;
      var j :| 0 <= j < |rest| && rest[j] == y;
      assert !NewestFirst()(all[|listed| + j], all[i]);
    }
    forall i, j | 0 <= i < j < |listed|
      ensures listed[i].storedAt >= listed[j].storedAt
    {
      assert !NewestFirst()(all[j], all[i]);
    }
  }
}
