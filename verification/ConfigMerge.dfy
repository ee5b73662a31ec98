/** Recursive merging of configuration trees and the loader that uses it (config/__init__.py). */
module ConfigMerge {
  import opened Collections

  /** A parsed document; `Leaf` stands for any scalar. */
  datatype Json = Obj(fields: map<string, Json>) | Arr(items: seq<Json>) | Leaf(text: string)

  /** A copy is a fresh tree with the same contents. */
  function Copy(value: Json): (r: Json)
    ensures r == value
    decreases value, 1
  {
    match value
    case Obj(fields) => Obj(CopyFields(fields))
    case Arr(items) => Arr(CopyAll(items))
    case Leaf(text) => Leaf(text)
  }

  function CopyFields(fields: map<string, Json>): (r: map<string, Json>)
    ensures r == fields
    decreases Obj(fields), 0
  {
    map k | k in fields :: Copy(fields[k])
  }

  function CopyAll(items: seq<Json>): (r: seq<Json>)
    ensures r == items
    decreases items, 0
  {
    if items == [] then [] else [Copy(items[0])] + CopyAll(items[1..])
  }

  predicate Nested(base: map<string, Json>, override: map<string, Json>, key: string) {
    key in base && key in override && base[key].Obj? && override[key].Obj?
  }

  /** Two dictionaries at the same place merge; anything else is replaced. */
  function MergedValue(current: Option<Json>, value: Json): Json
    decreases value, 1
  {
    if current.Some? && current.value.Obj? && value.Obj? then Obj(Merged(current.value.fields, value.fields)) else value
  }

  function Merged(base: map<string, Json>, override: map<string, Json>): map<string, Json>
    decreases Obj(override), 0
  {
    map k | k in base.Keys + override.Keys ::
      if k !in override then base[k] else MergedValue(Get(base, k), override[k])
  }

  function Get(tree: map<string, Json>, key: string): Option<Json> {
    if key in tree then Some(tree[key]) else None
  }

  method MergeValue(current: Option<Json>, value: Json) returns (merged: Json)
    ensures merged == MergedValue(current, value)
    decreases value, 1
  {
    if current.Some? && current.value.Obj? && value.Obj? {
      var below := DeepMerge(current.value.fields, value.fields);
      return Obj(below);
    }
    return Copy(value);
  }

  method DeepMerge(base: map<string, Json>, override: map<string, Json>) returns (result: map<string, Json>)
    ensures result == Merged(base, override)
    decreases Obj(override), 0
  {
    result := CopyFields(base);
    var keys := override.Keys;
    while keys != {}
      invariant keys <= override.Keys
      invariant PartlyMerged(base, override, override.Keys - keys, result)
      decreases |keys|
    {
      var key: string :| key in keys;
      var merged := MergeValue(Get(result, key), override[key]);
      result := result[key := merged];
      keys := keys - {key};
    }
    assert override.Keys - keys == override.Keys;
    IsMerged(base, override, result);
  }

  /** The keys in `done` are merged and the others are still as in the base. */
  ghost predicate PartlyMerged(base: map<string, Json>, override: map<string, Json>, done: set<string>,
                               result: map<string, Json>)
    requires done <= override.Keys
  {
    && result.Keys == base.Keys + done
    && forall k :: k in result ==> result[k] == if k in done then MergedValue(Get(base, k), override[k]) else base[k]
  }

  lemma IsMerged(base: map<string, Json>, override: map<string, Json>, result: map<string, Json>)
    requires PartlyMerged(base, override, override.Keys, result)
    ensures result == Merged(base, override)
  {
    var merged := Merged(base, override);
    assert merged.Keys == result.Keys;
    forall k | k in result
      ensures result[k] == merged[k]
    {
    }
  }

  // ----- What is at a path -----

  /** The value at a path of keys; only dictionaries have anything below them. */
  function At(tree: Json, path: seq<string>): Option<Json> {
    if path == [] then Some(tree)
    else if tree.Obj? && path[0] in tree.fields then At(tree.fields[path[0]], path[1..])
    else None
  }

  predicate IsObj(x: Option<Json>) {
    x.Some? && x.value.Obj?
  }

  /** The override ends at a value that is not a dictionary somewhere above the path. */
  ghost predicate Blocked(override: Json, path: seq<string>) {
    exists i :: 0 <= i < |path| && EndsAt(override, path[..i])
  }

  ghost predicate EndsAt(tree: Json, path: seq<string>) {
    At(tree, path).Some? && !At(tree, path).value.Obj?
  }

  /** What the merge has at every path, in terms of what the base and the override have there. */
  ghost function ExpectedAt(base: Json, override: Json, path: seq<string>): Option<Json> {
    if IsObj(At(override, path)) && IsObj(At(base, path)) then
      Some(Obj(Merged(At(base, path).value.fields, At(override, path).value.fields)))
    else if At(override, path).Some? then At(override, path)
    else if Blocked(override, path) then None
    else At(base, path)
  }

  lemma BlockedBelow(override: Json, path: seq<string>)
    requires path != [] && override.Obj? && path[0] in override.fields
    ensures Blocked(override, path) <==> Blocked(override.fields[path[0]], path[1..])
  {
    var below := override.fields[path[0]];
    if Blocked(override, path) {
      var i :| 0 <= i < |path| && EndsAt(override, path[..i]);
      assert i > 0 && path[..i][1..] == path[1..][..i - 1];
      assert EndsAt(below, path[1..][..i - 1]);
    }
    if Blocked(below, path[1..]) {
      var i :| 0 <= i < |path[1..]| && EndsAt(below, path[1..][..i]);
      assert path[..i + 1][1..] == path[1..][..i];
      assert EndsAt(override, path[..i + 1]);
    }
  }

  /** A value that is not a dictionary has nothing below it, and one that lacks the key does not block it. */
  lemma NothingBelow(tree: Json, path: seq<string>)
    requires path != []
    ensures !tree.Obj? ==> At(tree, path) == None && Blocked(tree, path)
    ensures tree.Obj? && path[0] !in tree.fields ==> At(tree, path) == None && !Blocked(tree, path)
  {
    assert path[..0] == [];
    if !tree.Obj? {
      assert EndsAt(tree, path[..0]);
    }
  }

  /**
   * At every path: dictionaries of both sides merge; otherwise the override's value wins; where the override ends
   * above the path nothing of the base is left; and where the override does not reach the base survives.
   */
  lemma {:induction false} MergedAt(base: map<string, Json>, override: map<string, Json>, path: seq<string>)
    ensures At(Obj(Merged(base, override)), path) == ExpectedAt(Obj(base), Obj(override), path)
    decreases |path|
  {
    if path != [] {
      var k, rest := path[0], path[1..];
      if k !in override {
        NothingBelow(Obj(override), path);
      } else {
        BlockedBelow(Obj(override), path);
        if Nested(base, override, k) {
          MergedAt(base[k].fields, override[k].fields, rest);
        } else {
          ReplacedAt(base, override, k, rest);
        }
      }
    }
  }

  lemma ReplacedAt(base: map<string, Json>, override: map<string, Json>, k: string, rest: seq<string>)
    requires k in override && !Nested(base, override, k)
    ensures var b := if k in base then At(base[k], rest) else None;
            && (IsObj(b) ==> !IsObj(At(override[k], rest)))
            && (At(override[k], rest).None? && !Blocked(override[k], rest) ==> b.None?)
  {
    if rest != [] {
      if !override[k].Obj? {
        NothingBelow(override[k], rest);
      } else if k in base {
        NothingBelow(base[k], rest);
      }
    }
  }

  /** Every value of the override that is not a dictionary is in the result, at its path. */
  lemma OverrideWins(base: map<string, Json>, override: map<string, Json>, path: seq<string>)
    requires EndsAt(Obj(override), path)
    ensures At(Obj(Merged(base, override)), path) == At(Obj(override), path)
  {
    MergedAt(base, override, path);
  }

  /** Where the override has nothing and does not end above, the result is the base. */
  lemma BaseSurvives(base: map<string, Json>, override: map<string, Json>, path: seq<string>)
    requires At(Obj(override), path).None? && !Blocked(Obj(override), path)
    ensures At(Obj(Merged(base, override)), path) == At(Obj(base), path)
  {
    MergedAt(base, override, path);
  }

  // ----- Algebra -----

  lemma KeysAreTheUnion(base: map<string, Json>, override: map<string, Json>)
    ensures Merged(base, override).Keys == base.Keys + override.Keys
    ensures Merged(map[], override) == override && Merged(base, map[]) == base
  {
  }

  /** Merging a tree with itself changes nothing. */
  lemma {:induction false} MergeWithItself(tree: map<string, Json>)
    ensures Merged(tree, tree) == tree
    decreases Obj(tree)
  {
    forall k | k in tree && tree[k].Obj?
      ensures Merged(tree[k].fields, tree[k].fields) == tree[k].fields
    {
      MergeWithItself(tree[k].fields);
    }
  }

  /** Applying the same override twice equals applying it once. */
  lemma {:induction false} MergeTwice(base: map<string, Json>, override: map<string, Json>)
    ensures Merged(Merged(base, override), override) == Merged(base, override)
    decreases Obj(override)
  {
    var once := Merged(base, override);
    var twice := Merged(once, override);
    assert twice.Keys == once.Keys;
    forall k | k in once
      ensures twice[k] == once[k]
    {
      if k in override {
        assert once[k] == MergedValue(Get(base, k), override[k]);
        assert twice[k] == MergedValue(Some(once[k]), override[k]);
      }
      if Nested(base, override, k) {
        MergeTwice(base[k].fields, override[k].fields);
      } else if k in override && override[k].Obj? {
        MergeWithItself(override[k].fields);
      }
    }
  }

  // ----- The loader -----

  /** The parsed configuration files by directory and file name. */
  type Files = map<(string, string), map<string, Json>>

  function Candidates(name: string, network: Option<string>): seq<string> {
    (if network.GetOr("") != "" then [name + "." + network.value + ".json"] else []) + [name + ".json"]
  }

  /** A file for the network, when one is named, comes before the general one; there are no others. */
  lemma NetworkFileComesFirst(name: string, network: Option<string>)
    ensures network in {None, Some("")} ==> Candidates(name, network) == [name + ".json"]
    ensures network !in {None, Some("")} ==>
              Candidates(name, network) == [name + "." + network.value + ".json", name + ".json"]
  {
  }

  /** What is loaded from one directory: the network's file if it exists, else the general one if that exists. */
  lemma FoundIsPreferred(files: Files, dir: string, name: string, network: string)
    requires network != ""
    ensures var specific, general := (dir, name + "." + network + ".json"), (dir, name + ".json");
            && FirstFound(files, dir, Candidates(name, Some(network))) ==
                 (if specific in files then Some(specific) else if general in files then Some(general) else None)
            && FirstFound(files, dir, Candidates(name, None)) == if general in files then Some(general) else None
  {
    NetworkFileComesFirst(name, Some(network));
    assert Candidates(name, Some(network))[1..] == [name + ".json"] && [name + ".json"][1..] == [];
    assert FirstFound(files, dir, []) == None;
    assert FirstFound(files, dir, [name + ".json"]) == if (dir, name + ".json") in files
                                                       then Some((dir, name + ".json"))
                                                       else None;
  }

  /** The first candidate in the directory that exists. */
  function FirstFound(files: Files, dir: string, candidates: seq<string>): Option<(string, string)> {
    if candidates == [] then None
    else if (dir, candidates[0]) in files then Some((dir, candidates[0]))
    else FirstFound(files, dir, candidates[1..])
  }

  function Contents(files: Files, found: Option<(string, string)>): map<string, Json> {
    if found.Some? && found.value in files then files[found.value] else map[]
  }

  function AsList<T>(x: Option<T>): seq<T> {
    if x.Some? then [x.value] else []
  }

  method FindFirst(files: Files, dir: string, candidates: seq<string>) returns (found: Option<(string, string)>)
    ensures found == FirstFound(files, dir, candidates)
  {
    for i := 0 to |candidates|
      invariant FirstFound(files, dir, candidates) == FirstFound(files, dir, candidates[i..])
    {
      if (dir, candidates[i]) in files {
        return Some((dir, candidates[i]));
      }
    }
    return None;
  }

  /** `profile` is the resolved profile directory.  Skipping the merge for an empty base makes no difference. */
  method LoadConfig(files: Files, name: string, network: Option<string>, profile: Option<string>)
    returns (config: map<string, Json>, sources: seq<(string, string)>)
    ensures var base := FirstFound(files, "", Candidates(name, network));
            var override := if profile.Some? then FirstFound(files, profile.value, Candidates(name, network)) else None;
            && config == Merged(Contents(files, base), Contents(files, override))
            && sources == AsList(base) + AsList(override)
  {
    config, sources := map[], [];
    var found := FindFirst(files, "", Candidates(name, network));
    if found.Some? {
      FoundIsThere(files, "", Candidates(name, network));
      config := files[found.value];
      sources := [found.value];
    }
    ghost var base := config;
    KeysAreTheUnion(base, map[]);
    if profile.Some? {
      var candidate := FindFirst(files, profile.value, Candidates(name, network));
      if candidate.Some? {
        FoundIsThere(files, profile.value, Candidates(name, network));
        var override := files[candidate.value];
        KeysAreTheUnion(map[], override);
        if config != map[] {
          config := DeepMerge(config, override);
        } else {
          config := CopyFields(override);
        }
        sources := sources + [candidate.value];
      }
    }
  }

  lemma {:induction false} FoundIsThere(files: Files, dir: string, candidates: seq<string>)
    ensures var found := FirstFound(files, dir, candidates); found.Some? ==> found.value in files
  {
    if candidates != [] {
      FoundIsThere(files, dir, candidates[1..]);
    }
  }
}
