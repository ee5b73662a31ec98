/** Schema migrations recorded in the database they migrate (backend/database.py). */
module Migrations {
  import opened Collections

  /** An upgrade that raises is None; the transaction around it is then rolled back. */
  datatype Migration<!S> = Migration(version: string, upgrade: S -> Option<S>)

  function Versions<S>(all: seq<Migration<S>>): (versions: seq<string>)
    ensures |versions| == |all|
  {
    if all == [] then [] else Versions(Front(all)) + [Last(all).version]
  }

  lemma {:induction false} VersionAt<S>(all: seq<Migration<S>>, i: nat)
    requires i < |all|
    ensures Versions(all)[i] == all[i].version
  {
    if i < |all| - 1 {
      VersionAt(Front(all), i);
    }
  }

  /** The upgrades of the first `n` migrations, one after the other. */
  function Fold<S>(initial: S, all: seq<Migration<S>>, n: nat): Option<S>
    requires n <= |all|
  {
    if n == 0 then Some(initial)
    else
      var before := Fold(initial, all, n - 1);
      if before.None? then None else all[n - 1].upgrade(before.value)
  }

  // ----- First occurrences -----

  /** The list without the migrations whose version occurs earlier in it. */
  function Firsts<S>(all: seq<Migration<S>>): seq<Migration<S>> {
    if all == [] then []
    else if Last(all).version in Versions(Front(all)) then Firsts(Front(all))
    else Firsts(Front(all)) + [Last(all)]
  }

  lemma VersionsOfMore<S>(all: seq<Migration<S>>, m: Migration<S>)
    ensures Versions(all + [m]) == Versions(all) + [m.version]
    ensures Firsts(all + [m]) == if m.version in Versions(all) then Firsts(all) else Firsts(all) + [m]
  {
    assert Front(all + [m]) == all;
  }

  /** Every version occurs exactly once among the first occurrences. */
  lemma {:induction false} FirstsAreDistinct<S>(all: seq<Migration<S>>)
    ensures NoDup(Versions(Firsts(all)))
    ensures forall v :: v in Versions(Firsts(all)) <==> v in Versions(all)
    ensures |Firsts(all)| <= |all|
  {
    if all != [] {
      var front, last := Front(all), Last(all);
      FirstsAreDistinct(front);
      if last.version !in Versions(front) {
        VersionsOfMore(Firsts(front), last);
        NoDupConcat(Versions(Firsts(front)), [last.version]);
      }
    }
  }

  /** Nothing is left out of a list exactly when its versions are distinct. */
  lemma {:induction false} DistinctMeansAllFirst<S>(all: seq<Migration<S>>)
    ensures NoDup(Versions(all)) ==> Firsts(all) == all
    ensures !NoDup(Versions(all)) ==> |Firsts(all)| < |all|
  {
    if all != [] {
      var front, last := Front(all), Last(all);
      DistinctMeansAllFirst(front);
      FirstsAreDistinct(front);
      FrontAndLast(all);
      NoDupOfMore(Versions(front), last.version);
    }
  }

  lemma NoDupOfMore(s: seq<string>, x: string)
    ensures NoDup(s + [x]) <==> NoDup(s) && x !in s
  {
    var more := s + [x];
    assert forall i :: 0 <= i < |s| ==> more[i] == s[i];
    assert more[|s|] == x;
    if NoDup(more) {
      forall i | 0 <= i < |s|
        ensures s[i] != x
      {
        assert more[i] != more[|s|];
      }
      forall i, j | 0 <= i < j < |s|
        ensures s[i] != s[j]
      {
        assert more[i] != more[j];
      }
    } else if NoDup(s) && x !in s {
      NoDupConcat(s, [x]);
    }
  }

  /** A shorter release's list has the first of the same first occurrences. */
  lemma {:induction false} FirstsOfPrefix<S>(all: seq<Migration<S>>, n: nat)
    requires n <= |all|
    ensures |Firsts(all[..n])| <= |Firsts(all)|
    ensures Firsts(all[..n]) == Firsts(all)[..|Firsts(all[..n])|]
  {
    if n == |all| {
      assert all[..n] == all;
    } else {
      FirstsOfPrefix(Front(all), n);
      assert Front(all)[..n] == all[..n];
    }
  }

  /** How many distinct versions there are among the first `n` migrations. */
  function Distinct<S>(all: seq<Migration<S>>, n: nat): nat
    requires n <= |all|
  {
    |Firsts(all[..n])|
  }

  /** The applied versions are a prefix of the first occurrences, and the schema is what that prefix builds. */
  ghost predicate Consistent<S(!new)>(initial: S, all: seq<Migration<S>>, schema: S, applied: seq<string>) {
    var firsts := Firsts(all);
    && |applied| <= |firsts|
    && applied == Versions(firsts)[..|applied|]
    && Fold(initial, firsts, |applied|) == Some(schema)
  }

  /**
   * Migration `n` with everything before it applied: when its version is applied the ones up to it are, and when not
   * it is the next first occurrence.
   */
  lemma NextVersion<S(!new)>(all: seq<Migration<S>>, applied: seq<string>, n: nat)
    requires n < |all| && Distinct(all, n) <= |applied| <= |Firsts(all)|
             && applied == Versions(Firsts(all))[..|applied|]
    ensures all[n].version in applied ==> Distinct(all, n + 1) <= |applied|
    ensures all[n].version !in applied ==>
              |applied| < |Firsts(all)| && Firsts(all)[|applied|] == all[n] && Distinct(all, n + 1) == |applied| + 1
  {
    var v, k, versions := all[n].version, Distinct(all, n), Versions(Firsts(all));
    if v in Versions(all[..n]) {
      RepeatIsApplied(all, n);
      var i :| 0 <= i < k && versions[i] == v;
      assert applied[i] == v;
    } else {
      FirstOccurrence(all, n);
      FirstsAreDistinct(all);
      InPrefix(versions, |applied|, k);
    }
  }

  /** A version that occurs earlier in the list is among the earlier first occurrences. */
  lemma RepeatIsApplied<S>(all: seq<Migration<S>>, n: nat)
    requires n < |all| && all[n].version in Versions(all[..n])
    ensures Distinct(all, n + 1) == Distinct(all, n) <= |Firsts(all)|
    ensures exists i :: 0 <= i < Distinct(all, n) && Versions(Firsts(all))[i] == all[n].version
  {
    var before := all[..n];
    assert all[..n + 1] == before + [all[n]];
    VersionsOfMore(before, all[n]);
    FirstsOfPrefix(all, n);
    FirstsAreDistinct(before);
    VersionsOfPrefix(Firsts(all), Distinct(all, n));
    var early := Versions(Firsts(all))[..Distinct(all, n)];
    var i :| 0 <= i < |early| && early[i] == all[n].version;
    assert Versions(Firsts(all))[i] == all[n].version;
  }

  /** A version that does not is the next first occurrence. */
  lemma FirstOccurrence<S>(all: seq<Migration<S>>, n: nat)
    requires n < |all| && all[n].version !in Versions(all[..n])
    ensures var k := Distinct(all, n);
            && Distinct(all, n + 1) == k + 1 <= |Firsts(all)|
            && Firsts(all)[k] == all[n] && Versions(Firsts(all))[k] == all[n].version
  {
    var before, k := all[..n], Distinct(all, n);
    assert all[..n + 1] == before + [all[n]];
    VersionsOfMore(before, all[n]);
    FirstsOfPrefix(all, n + 1);
    assert Firsts(all)[..k + 1][k] == all[n];
    VersionAt(Firsts(all), k);
  }

  lemma {:induction false} VersionsOfPrefix<S>(all: seq<Migration<S>>, n: nat)
    requires n <= |all|
    ensures Versions(all[..n]) == Versions(all)[..n]
  {
    if n == |all| {
      assert all[..n] == all;
    } else {
      VersionsOfPrefix(Front(all), n);
      assert Front(all)[..n] == all[..n];
    }
  }

  lemma InPrefix(versions: seq<string>, k: nat, i: nat)
    requires NoDup(versions) && i <= k <= |versions| && i < |versions|
    ensures versions[i] in versions[..k] <==> i < k
  {
    assert i < k ==> versions[..k][i] == versions[i];
  }

  lemma CommitKeepsConsistent<S(!new)>(initial: S, all: seq<Migration<S>>, schema: S, applied: seq<string>)
    requires Consistent(initial, all, schema, applied) && |applied| < |Firsts(all)|
    ensures var m := Firsts(all)[|applied|];
            m.upgrade(schema).Some? ==> Consistent(initial, all, m.upgrade(schema).value, applied + [m.version])
  {
    var i, versions := |applied|, Versions(Firsts(all));
    VersionAt(Firsts(all), i);
    assert versions[..i + 1] == versions[..i] + [versions[i]];
  }

  // ----- One run -----

  datatype Outcome = Finished | Failed | Interrupted

  class Database<S(!new)> {
    var schema: S
    var applied: seq<string>  // the rows of the version table
    ghost const initial: S

    constructor (initial: S)
      ensures schema == initial == this.initial && applied == []
    {
      this.initial, schema, applied := initial, initial, [];
    }

    method IsApplied(version: string) returns (found: bool)
      ensures found <==> version in applied
    {
      found := version in applied;
    }

    /** One transaction: the upgrade and the row of its version are committed together or not at all. */
    method Apply(m: Migration<S>) returns (committed: bool)
      modifies this`schema, this`applied
      ensures committed <==> m.upgrade(old(schema)).Some? && m.version !in old(applied)
      ensures committed ==> Some(schema) == m.upgrade(old(schema)) && applied == old(applied) + [m.version]
      ensures !committed ==> schema == old(schema) && applied == old(applied)
    {
      var upgraded := m.upgrade(schema);
      if upgraded.None? {
        return false;
      }
      if m.version in applied {
        return false;
      }
      schema, applied := upgraded.value, applied + [m.version];
      return true;
    }

    /**
     * Runs the migrations of a release, which may know fewer than `all`; the process may die after `life` turns of the
     * loop.  A finished run has applied every version it knows; a failed one stops just before the first upgrade that
     * raises.  A version that occurs again is passed over.
     */
    method RunMigrations(ghost all: seq<Migration<S>>, migrations: seq<Migration<S>>, life: nat)
      returns (outcome: Outcome)
      requires |migrations| <= |all| && migrations == all[..|migrations|]
      requires Consistent(initial, all, schema, applied)
      modifies this`schema, this`applied
      ensures Consistent(initial, all, schema, applied)
      ensures |old(applied)| <= |applied| <= Max(|old(applied)|, |Firsts(migrations)|)
      ensures outcome == Finished ==> |applied| == Max(|old(applied)|, |Firsts(migrations)|)
      ensures outcome == Failed ==>
                |applied| < |Firsts(migrations)| && Firsts(migrations)[|applied|].upgrade(schema).None?
      ensures outcome == Interrupted ==> life <= |migrations|
    {
      var turns := 0;
      assert all[..0] == [];
      FirstsOfPrefix(all, |migrations|);
      for i := 0 to |migrations|
        invariant Consistent(initial, all, schema, applied)
        invariant Max(|old(applied)|, Distinct(all, i)) == |applied|
        invariant turns == i
      {
        if turns == life {
          FirstsOfPrefix(migrations, i);
          assert migrations[..i] == all[..i];
          return Interrupted;
        }
        turns := turns + 1;
        TurnKeepsConsistent(initial, all, migrations, schema, applied, i);
        var done := IsApplied(migrations[i].version);
        if !done {
          var committed := Apply(migrations[i]);
          if !committed {
            return Failed;
          }
        }
      }
      return Finished;
    }
  }

  /** What one turn of the loop finds and may do. */
  lemma TurnKeepsConsistent<S(!new)>(initial: S, all: seq<Migration<S>>, migrations: seq<Migration<S>>, schema: S,
                                     applied: seq<string>, i: nat)
    requires i < |migrations| <= |all| && migrations == all[..|migrations|]
    requires Consistent(initial, all, schema, applied) && Distinct(all, i) <= |applied|
    ensures Distinct(all, i) <= Distinct(all, i + 1) <= |Firsts(migrations)|
    ensures var m := migrations[i];
            if m.version in applied then Distinct(all, i + 1) <= |applied|
            else
              && Distinct(all, i + 1) == |applied| + 1 && Firsts(migrations)[|applied|] == m
              && (m.upgrade(schema).Some? ==> Consistent(initial, all, m.upgrade(schema).value, applied + [m.version]))
  {
    assert migrations[i] == all[i];
    NextVersion(all, applied, i);
    DistinctGrows(all, i);
    DistinctWithin(all, migrations, i + 1);
    if migrations[i].version !in applied {
      CommitKeepsConsistent(initial, all, schema, applied);
      FirstsOfPrefix(all, |migrations|);
      assert Firsts(migrations)[|applied|] == Firsts(all)[|applied|];
    }
  }

  lemma DistinctGrows<S>(all: seq<Migration<S>>, n: nat)
    requires n < |all|
    ensures Distinct(all, n) <= Distinct(all, n + 1)
  {
    assert all[..n + 1] == all[..n] + [all[n]];
    VersionsOfMore(all[..n], all[n]);
  }

  lemma DistinctWithin<S>(all: seq<Migration<S>>, migrations: seq<Migration<S>>, n: nat)
    requires n <= |migrations| <= |all| && migrations == all[..|migrations|]
    ensures Distinct(all, n) <= |Firsts(migrations)|
  {
    assert migrations[..n] == all[..n];
    FirstsOfPrefix(migrations, n);
  }

  // ----- Any number of runs, one after the other or at the same time -----

  /** A process about to look at its migration `next`, or, when `checked`, about to apply it. */
  datatype Process = Process(count: nat, next: nat, checked: bool)

  datatype World<S> = World(schema: S, applied: seq<string>, processes: map<nat, Process>)

  datatype Event = Start(pid: nat, count: nat) | Check(pid: nat) | Apply(pid: nat) | Crash(pid: nat)

  ghost predicate Legal<S>(all: seq<Migration<S>>, w: World<S>, e: Event) {
    match e
    case Start(pid, count) => pid !in w.processes && count <= |all|
    case Check(pid) => pid in w.processes && !w.processes[pid].checked && w.processes[pid].next < w.processes[pid].count
    case Apply(pid) => pid in w.processes && w.processes[pid].checked && w.processes[pid].next < |all|
    case Crash(pid) => pid in w.processes
  }

  /**
   * Checking and applying are separate transactions, so another process may commit in between; inserting a version
   * that is there already violates the primary key, which rolls the upgrade back and ends the process.
   */
  ghost function Step<S>(all: seq<Migration<S>>, w: World<S>, e: Event): World<S>
    requires Legal(all, w, e)
  {
    match e
    case Start(pid, count) => w.(processes := w.processes[pid := Process(count, 0, false)])
    case Check(pid) =>
      var p := w.processes[pid];
      if p.next < |all| && all[p.next].version in w.applied
      then w.(processes := w.processes[pid := p.(next := p.next + 1)])
      else w.(processes := w.processes[pid := p.(checked := true)])
    case Apply(pid) =>
      var p := w.processes[pid];
      var m := all[p.next];
      var upgraded := m.upgrade(w.schema);
      if upgraded.None? || m.version in w.applied then w.(processes := w.processes - {pid})
      else World(upgraded.value, w.applied + [m.version], w.processes[pid := Process(p.count, p.next + 1, false)])
    case Crash(pid) => w.(processes := w.processes - {pid})
  }

  ghost predicate LegalRun<S>(all: seq<Migration<S>>, w: World<S>, events: seq<Event>)
    decreases |events|, 0
  {
    events == [] || (LegalRun(all, w, Front(events)) && Legal(all, Run(all, w, Front(events)), Last(events)))
  }

  ghost function Run<S>(all: seq<Migration<S>>, w: World<S>, events: seq<Event>): World<S>
    requires LegalRun(all, w, events)
    decreases |events|, 1
  {
    if events == [] then w else Step(all, Run(all, w, Front(events)), Last(events))
  }

  ghost predicate ProcessFits<S>(all: seq<Migration<S>>, w: World<S>, pid: nat)
    requires pid in w.processes
  {
    var p := w.processes[pid];
    p.next <= p.count <= |all| && Distinct(all, p.next) <= |w.applied| && (p.checked ==> p.next < p.count)
  }

  ghost predicate Inv<S(!new)>(initial: S, all: seq<Migration<S>>, w: World<S>) {
    Consistent(initial, all, w.schema, w.applied) && forall pid :: pid in w.processes ==> ProcessFits(all, w, pid)
  }

  lemma StepKeepsInv<S(!new)>(initial: S, all: seq<Migration<S>>, w: World<S>, e: Event)
    requires Inv(initial, all, w) && Legal(all, w, e)
    ensures Inv(initial, all, Step(all, w, e))
    ensures w.applied <= Step(all, w, e).applied
  {
    assert all[..0] == [];
    if !e.Start? {
      assert ProcessFits(all, w, e.pid);
      var next := w.processes[e.pid].next;
      if next < |all| {
        NextVersion(all, w.applied, next);
      }
      if |w.applied| < |Firsts(all)| {
        CommitKeepsConsistent(initial, all, w.schema, w.applied);
      }
    }
    var w' := Step(all, w, e);
    forall pid | pid in w'.processes
      ensures ProcessFits(all, w', pid)
    {
      assert pid in w.processes ==> ProcessFits(all, w, pid);
    }
  }

  ghost function Fresh<S>(initial: S): World<S> {
    World(initial, [], map[])
  }

  /**
   * Over every interleaving of starts, checks, transactions and crashes, and for every list: the applied versions are a
   * prefix of its first occurrences, without repetition, and the schema is the fold of the upgrades over that prefix.
   */
  lemma {:induction false} AppliedIsAPrefix<S(!new)>(initial: S, all: seq<Migration<S>>, events: seq<Event>)
    requires LegalRun(all, Fresh(initial), events)
    ensures Inv(initial, all, Run(all, Fresh(initial), events))
    ensures NoDup(Run(all, Fresh(initial), events).applied)
    decreases |events|
  {
    FirstsAreDistinct(all);
    if events != [] {
      AppliedIsAPrefix(initial, all, Front(events));
      StepKeepsInv(initial, all, Run(all, Fresh(initial), Front(events)), Last(events));
    }
  }

  /** A version once committed is never committed again: the commits of a run only ever extend each other. */
  lemma {:induction false} AppliedOnlyGrows<S(!new)>(initial: S, all: seq<Migration<S>>, events: seq<Event>, n: nat)
    requires n <= |events| && LegalRun(all, Fresh(initial), events)
    ensures LegalRun(all, Fresh(initial), events[..n])
    ensures Run(all, Fresh(initial), events[..n]).applied <= Run(all, Fresh(initial), events).applied
    decreases |events|
  {
    if n == |events| {
      assert events[..n] == events;
    } else {
      assert Front(events)[..n] == events[..n];
      AppliedOnlyGrows(initial, all, Front(events), n);
      AppliedIsAPrefix(initial, all, Front(events));
      StepKeepsInv(initial, all, Run(all, Fresh(initial), Front(events)), Last(events));
    }
  }

  /** Some process has gone through the whole list. */
  ghost predicate Done<S>(all: seq<Migration<S>>, w: World<S>, pid: nat) {
    pid in w.processes && w.processes[pid].count == |all| && w.processes[pid].next == |all|
  }

  /** Whoever finishes the whole list leaves the schema of one uninterrupted run over its first occurrences. */
  lemma FinishedRunsAgree<S(!new)>(initial: S, all: seq<Migration<S>>, events: seq<Event>, pid: nat)
    requires LegalRun(all, Fresh(initial), events) && Done(all, Run(all, Fresh(initial), events), pid)
    ensures var w := Run(all, Fresh(initial), events);
            w.applied == Versions(Firsts(all)) && Some(w.schema) == Fold(initial, Firsts(all), |Firsts(all)|)
  {
    AppliedIsAPrefix(initial, all, events);
    DoneMeansAll(initial, all, Run(all, Fresh(initial), events), pid);
  }

  lemma DoneMeansAll<S(!new)>(initial: S, all: seq<Migration<S>>, w: World<S>, pid: nat)
    requires Inv(initial, all, w) && Done(all, w, pid)
    ensures w.applied == Versions(Firsts(all)) && Some(w.schema) == Fold(initial, Firsts(all), |Firsts(all)|)
  {
    assert ProcessFits(all, w, pid);
    assert all[..|all|] == all;
    assert Versions(Firsts(all))[..|Firsts(all)|] == Versions(Firsts(all));
  }

  /**
   * A finished list has been applied in full if and only if its versions are distinct; the schema is then the fold of
   * all its upgrades.
   */
  lemma CompleteExactlyWhenDistinct<S(!new)>(initial: S, all: seq<Migration<S>>, events: seq<Event>, pid: nat)
    requires LegalRun(all, Fresh(initial), events) && Done(all, Run(all, Fresh(initial), events), pid)
    ensures var w := Run(all, Fresh(initial), events);
            && (w.applied == Versions(all) <==> NoDup(Versions(all)))
            && (NoDup(Versions(all)) ==> Some(w.schema) == Fold(initial, all, |all|))
  {
    FinishedRunsAgree(initial, all, events, pid);
    DistinctMeansAllFirst(all);
  }

  /** A witness: the second migration under a used version is skipped, and the run finishes. */
  lemma RepeatedVersionIsSkipped(initial: int)
    ensures var add := (n: int) => Some(n + 1);
            var all := [Migration("1", add), Migration("1", add)];
            var events := [Start(0, 2), Check(0), Apply(0), Check(0)];
            && LegalRun(all, Fresh(initial), events)
            && Done(all, Run(all, Fresh(initial), events), 0)
            && Run(all, Fresh(initial), events).schema == initial + 1
            && Fold(initial, all, 2) == Some(initial + 2)
  {
    var add := (n: int) => Some(n + 1);
    var all := [Migration("1", add), Migration("1", add)];
    var e1, e2, e3, e4 := [Start(0, 2)], [Start(0, 2), Check(0)], [Start(0, 2), Check(0), Apply(0)],
                          [Start(0, 2), Check(0), Apply(0), Check(0)];
    assert Front(e1) == [] && Front(e2) == e1 && Front(e3) == e2 && Front(e4) == e3;
    assert Run(all, Fresh(initial), e1) == World(initial, [], map[0 := Process(2, 0, false)]);
    assert Run(all, Fresh(initial), e2) == World(initial, [], map[0 := Process(2, 0, true)]);
    assert Run(all, Fresh(initial), e3) == World(initial + 1, ["1"], map[0 := Process(2, 1, false)]);
    assert Run(all, Fresh(initial), e4) == World(initial + 1, ["1"], map[0 := Process(2, 2, false)]);
    assert Fold(initial, all, 1) == Some(initial + 1);
  }
}
