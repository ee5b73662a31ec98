/** Grouping keyed entries in the order in which their keys first appear, as an insertion-ordered map does. */
module Grouping {
  import opened Collections

  datatype Keyed<T> = Keyed(key: string, item: T)

  datatype Group<T> = Group(key: string, members: seq<T>)

  /** Where the group of a key is, or the number of groups. */
  function Place<T>(groups: seq<Group<T>>, key: string): (i: nat)
    ensures i <= |groups|
    ensures i < |groups| ==> groups[i].key == key
    ensures forall j :: 0 <= j < i ==> groups[j].key != key
  {
    NoneBeforeFirst(groups, (g: Group<T>) => g.key, key);
    FirstWith(groups, (g: Group<T>) => g.key, key)
  }

  function Enter<T>(groups: seq<Group<T>>, key: string, x: T): seq<Group<T>> {
    var i := Place(groups, key);
    if i < |groups| then groups[i := Group(key, groups[i].members + [x])] else groups + [Group(key, [x])]
  }

  function GroupAll<T>(entries: seq<Keyed<T>>): seq<Group<T>> {
    if entries == [] then [] else Enter(GroupAll(Front(entries)), Last(entries).key, Last(entries).item)
  }

  /** The specification of one group: the entries with its key, in order. */
  function MembersOf<T>(entries: seq<Keyed<T>>, key: string): seq<T> {
    if entries == [] then []
    else if Last(entries).key == key then MembersOf(Front(entries), key) + [Last(entries).item]
    else MembersOf(Front(entries), key)
  }

  function Items<T>(entries: seq<Keyed<T>>): seq<T> {
    if entries == [] then [] else Items(Front(entries)) + [Last(entries).item]
  }

  function AllMembers<T>(groups: seq<Group<T>>): seq<T> {
    if groups == [] then [] else AllMembers(Front(groups)) + Last(groups).members
  }

  ghost predicate UniqueKeys<T(!new)>(groups: seq<Group<T>>) {
    forall i, j :: 0 <= i < j < |groups| ==> groups[i].key != groups[j].key
  }

  ghost predicate GroupFits<T(!new)>(entries: seq<Keyed<T>>, g: Group<T>) {
    g.members != [] && g.members == MembersOf(entries, g.key)
  }

  ghost predicate HasKey<T(!new)>(groups: seq<Group<T>>, key: string) {
    exists i :: 0 <= i < |groups| && groups[i].key == key
  }

  ghost predicate Partitions<T(!new)>(groups: seq<Group<T>>, entries: seq<Keyed<T>>) {
    && UniqueKeys(groups)
    && (forall i :: 0 <= i < |groups| ==> GroupFits(entries, groups[i]))
    && (forall e :: e in entries ==> HasKey(groups, e.key))
  }

  lemma {:induction false} NoMembers<T(!new)>(entries: seq<Keyed<T>>, key: string)
    requires forall e :: e in entries ==> e.key != key
    ensures MembersOf(entries, key) == []
  {
    if entries != [] {
      NoMembers(Front(entries), key);
      assert Last(entries) in entries;
    }
  }

  /** Each key has one group, and the group holds exactly the entries with that key, in order. */
  lemma {:induction false} GroupsPartition<T(!new)>(entries: seq<Keyed<T>>)
    ensures Partitions(GroupAll(entries), entries)
  {
    if entries != [] {
      var front, last := Front(entries), Last(entries);
      var before, after := GroupAll(front), GroupAll(entries);
      assert entries == front + [last];
      GroupsPartition(front);
      var p := Place(before, last.key);
      if p == |before| {
        forall e | e in front
          ensures e.key != last.key
        {
          assert HasKey(before, e.key);
        }
        NoMembers(front, last.key);
      }
      forall i | 0 <= i < |after|
        ensures GroupFits(entries, after[i])
      {
        assert i < |before| ==> GroupFits(front, before[i]);
      }
      forall e | e in entries
        ensures HasKey(after, e.key)
      {
        if e in front {
          assert HasKey(before, e.key);
          var i :| 0 <= i < |before| && before[i].key == e.key;
          assert after[i].key == e.key;
        } else {
          assert after[p].key == e.key;
        }
      }
    }
  }

  lemma {:induction false} MembersAfterGrowth<T(!new)>(groups: seq<Group<T>>, i: nat, x: T)
    requires i < |groups|
    ensures multiset(AllMembers(groups[i := Group(groups[i].key, groups[i].members + [x])])) ==
              multiset(AllMembers(groups)) + multiset{x}
  {
    var g := Group(groups[i].key, groups[i].members + [x]);
    var updated := groups[i := g];
    if i == |groups| - 1 {
      assert Front(updated) == Front(groups);
    } else {
      MembersAfterGrowth(Front(groups), i, x);
      assert Front(updated) == Front(groups)[i := g];
    }
  }

  /** Grouping loses nothing and duplicates nothing. */
  lemma {:induction false} GroupingConserves<T(!new)>(entries: seq<Keyed<T>>)
    ensures multiset(AllMembers(GroupAll(entries))) == multiset(Items(entries))
  {
    if entries != [] {
      GroupingConserves(Front(entries));
      var before, last := GroupAll(Front(entries)), Last(entries);
      var p := Place(before, last.key);
      if p < |before| {
        MembersAfterGrowth(before, p, last.item);
      } else {
        assert Front(GroupAll(entries)) == before;
      }
    }
  }
}
