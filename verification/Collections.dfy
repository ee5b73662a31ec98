/** Vocabulary shared by the component models. */
module Collections {

  datatype Option<+T> = None | Some(value: T) {
    function GetOr(default: T): T {
      if Some? then value else default
    }
  }

  /** ASCII lower-casing, as applied to addresses before they are used as keys. */
  function Lower(s: string): string {
    if s == [] then [] else [LowerChar(s[0])] + Lower(s[1..])
  }

  function LowerChar(c: char): char {
    if 'A' <= c <= 'Z' then (c as int + 32) as char else c
  }

  predicate Upper(c: char) {
    'A' <= c <= 'Z'
  }

  /** Equal, or the two cases of one ASCII letter. */
  predicate SameLetter(a: char, b: char) {
    || a == b
    || (Upper(a) && b as int - a as int == 32)
    || (Upper(b) && a as int - b as int == 32)
  }

  ghost predicate SameUpToCase(a: string, b: string) {
    |a| == |b| && forall i :: 0 <= i < |a| ==> SameLetter(a[i], b[i])
  }

  /** Lower-casing identifies strings that differ in the case of letters, and no others. */
  lemma {:induction false} LowerMeetsUpToCase(a: string, b: string)
    ensures Lower(a) == Lower(b) <==> SameUpToCase(a, b)
  {
    if a == [] || b == [] {
      assert |Lower(a)| > 0 <==> a != [];
      assert |Lower(b)| > 0 <==> b != [];
    } else {
      LowerMeetsUpToCase(a[1..], b[1..]);
      LowerOfHead(a);
      LowerOfHead(b);
      assert SameUpToCase(a, b) <==> SameLetter(a[0], b[0]) && SameUpToCase(a[1..], b[1..]) by {
        if SameLetter(a[0], b[0]) && SameUpToCase(a[1..], b[1..]) {
          forall i | 0 <= i < |a| ensures SameLetter(a[i], b[i]) {
            if i > 0 { assert SameLetter(a[1..][i - 1], b[1..][i - 1]); }
          }
        }
      }
    }
  }

  lemma LowerOfHead(s: string)
    requires s != []
    ensures Lower(s) != [] && Lower(s)[0] == LowerChar(s[0]) && Lower(s)[1..] == Lower(s[1..])
  {
  }

  ghost predicate NoDup<T(!new)>(s: seq<T>) {
    forall i, j :: 0 <= i < j < |s| ==> s[i] != s[j]
  }

  lemma NoDupConcat<T(!new)>(a: seq<T>, b: seq<T>)
    requires NoDup(a) && NoDup(b) && forall x :: x in b ==> x !in a
    ensures NoDup(a + b)
  {
    forall i, j | 0 <= i < j < |a + b|
      ensures (a + b)[i] != (a + b)[j]
    {
      assert j >= |a| ==> (a + b)[j] in b;
      assert i < |a| ==> (a + b)[i] in a;
    }
  }

  /** The first `n` elements, or all of them when there are fewer. */
  function Take<T>(s: seq<T>, n: nat): seq<T> {
    if n <= |s| then s[..n] else s
  }

  /** The last `n` elements, or all of them when there are fewer. */
  function Suffix<T>(s: seq<T>, n: nat): seq<T> {
    if n <= |s| then s[|s| - n..] else s
  }

  /** Keeping a suffix after every append is the same as keeping it once, at the end. */
  lemma SuffixAppend<T>(s: seq<T>, x: T, n: nat)
    ensures Suffix(Suffix(s, n) + [x], n) == Suffix(s + [x], n)
  {
  }

  /** The position of the first element with this key, or the number of elements. */
  function FirstWith<T, K(==)>(s: seq<T>, keyOf: T -> K, key: K): (i: nat)
    ensures i <= |s|
    ensures i < |s| ==> keyOf(s[i]) == key
  {
    if s == [] || keyOf(s[0]) == key then 0 else 1 + FirstWith(s[1..], keyOf, key)
  }

  lemma {:induction false} NoneBeforeFirst<T, K>(s: seq<T>, keyOf: T -> K, key: K)
    ensures forall j :: 0 <= j < FirstWith(s, keyOf, key) ==> keyOf(s[j]) != key
  {
    if s != [] && keyOf(s[0]) != key {
      NoneBeforeFirst(s[1..], keyOf, key);
    }
  }

  function Last<T>(s: seq<T>): T
    requires s != []
  {
    s[|s| - 1]
  }

  function Front<T>(s: seq<T>): seq<T>
    requires s != []
  {
    s[..|s| - 1]
  }

  lemma FrontAndLast<T>(s: seq<T>)
    requires s != []
    ensures Front(s) + [Last(s)] == s
  {
  }

  lemma InPrefix<T(!new)>(s: seq<T>, more: seq<T>, n: nat, x: T)
    requires x in s && |s| <= n <= |s + more|
    ensures x in (s + more)[..n]
  {
    var i :| 0 <= i < |s| && s[i] == x;
    assert (s + more)[..n][i] == x;
  }

  function Max(a: int, b: int): int {
    if a >= b then a else b
  }

  function Min(a: int, b: int): int {
    if a <= b then a else b
  }
}
