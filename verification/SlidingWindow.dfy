/**
 * Pruning a time-stamped list to a window.  The three anomaly detectors prune lazily, at
 * different moments and sometimes with a stale clock reading; the lemmas say that this never
 * changes what a later, tighter window contains.
 */
module SlidingWindow {
  import opened Collections

  datatype Stamped<+T> = Stamped(at: int, what: T)

  /** A bare time stamp. */
  type Instant = Stamped<()>

  function Tick(at: int): Instant {
    Stamped(at, ())
  }

  /** The entries stamped at `cutoff` or later, in order. */
  function Recent<T(!new)>(entries: seq<Stamped<T>>, cutoff: int): seq<Stamped<T>>
  {
    if entries == [] then
      []
    else
      var kept := Recent(Front(entries), cutoff);
      var e := Last(entries);
      if e.at >= cutoff then kept + [e] else kept
  }

  lemma {:induction false} RecentMembers<T(!new)>(entries: seq<Stamped<T>>, cutoff: int)
    ensures forall e :: e in Recent(entries, cutoff) <==> e in entries && e.at >= cutoff
    ensures |Recent(entries, cutoff)| <= |entries|
  {
    if entries != [] {
      RecentMembers(Front(entries), cutoff);
      assert entries == Front(entries) + [Last(entries)];
    }
  }

  lemma RecentAppend<T(!new)>(entries: seq<Stamped<T>>, cutoff: int, e: Stamped<T>)
    ensures Recent(entries + [e], cutoff) ==
            Recent(entries, cutoff) + if e.at >= cutoff then [e] else []
  {
    assert Front(entries + [e]) == entries;
  }

  /** An earlier, looser pruning is invisible to a later, tighter one. */
  lemma {:induction false} PruneTwice<T(!new)>(entries: seq<Stamped<T>>, looser: int, tighter: int)
    requires looser <= tighter
    ensures Recent(Recent(entries, looser), tighter) == Recent(entries, tighter)
  {
    if entries != [] {
      PruneTwice(Front(entries), looser, tighter);
      RecentAppend(Recent(Front(entries), looser), tighter, Last(entries));
    }
  }

  /** As time passes a window over a fixed list only loses entries. */
  lemma {:induction false} WindowShrinks<T(!new)>(entries: seq<Stamped<T>>, earlier: int, later: int)
    requires earlier <= later
    ensures |Recent(entries, later)| <= |Recent(entries, earlier)|
  {
    PruneTwice(entries, earlier, later);
    RecentMembers(Recent(entries, earlier), later);
  }

  /** Two lists that agree on every window from `cutoff` on. */
  ghost predicate AgreeFrom<T(!new)>(a: seq<Stamped<T>>, b: seq<Stamped<T>>, cutoff: int) {
    forall c :: c >= cutoff ==> Recent(a, c) == Recent(b, c)
  }

  /** Pruning at any moment up to now keeps the pruned list in agreement with the full one. */
  lemma PruneAgrees<T(!new)>(pruned: seq<Stamped<T>>, full: seq<Stamped<T>>, cutoff: int, pruneAt: int, now: int)
    requires AgreeFrom(pruned, full, cutoff) && cutoff <= now && pruneAt <= now
    ensures AgreeFrom(Recent(pruned, pruneAt), full, now)
  {
    forall c | c >= now
      ensures Recent(Recent(pruned, pruneAt), c) == Recent(full, c)
    {
      PruneTwice(pruned, pruneAt, c);
    }
  }

  lemma AgreeLater<T(!new)>(a: seq<Stamped<T>>, b: seq<Stamped<T>>, cutoff: int, later: int)
    requires AgreeFrom(a, b, cutoff) && cutoff <= later
    ensures AgreeFrom(a, b, later)
  {
  }

  lemma AppendAgrees<T(!new)>(pruned: seq<Stamped<T>>, full: seq<Stamped<T>>, cutoff: int, e: Stamped<T>)
    requires AgreeFrom(pruned, full, cutoff)
    ensures AgreeFrom(pruned + [e], full + [e], cutoff)
  {
    forall c | c >= cutoff
      ensures Recent(pruned + [e], c) == Recent(full + [e], c)
    {
      RecentAppend(pruned, c, e);
      RecentAppend(full, c, e);
    }
  }
}
