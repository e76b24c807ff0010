/** The array operations the services use on id lists: `findIndex`,
    `splice(i, 1)` and `push`. Where the source holds post documents and
    compares them by `_id.toString()`, the lists here hold the ids. */
module Seqs {
  import opened Http

  predicate NoDuplicates<T(==)>(s: seq<T>)
  {
    forall i, j :: 0 <= i < j < |s| ==> s[i] != s[j]
  }

  /** `s.findIndex(p)`: the first position whose element the callback
      accepts, if any. */
  function FindIndex<T>(s: seq<T>, p: T -> bool): (r: Option<nat>)
    ensures r.None? <==> forall k :: 0 <= k < |s| ==> !p(s[k])
    ensures r.Some? ==> r.value < |s| && p(s[r.value])
    ensures r.Some? ==> forall k :: 0 <= k < r.value ==> !p(s[k])
  {
    if s == [] then None
    else if p(s[0]) then Some(0)
    else
      match FindIndex(s[1..], p)
      case None => None
      case Some(i) => Some(i + 1)
  }

  /** `findIndex` with a callback comparing by id (the source compares
      `_id.toString()` of post documents): the first position holding `x`,
      if any. */
  function IndexOf<T(==)>(s: seq<T>, x: T): (r: Option<nat>)
    ensures r.None? <==> x !in s
    ensures r.Some? ==> r.value < |s| && s[r.value] == x
    ensures r.Some? ==> forall k :: 0 <= k < r.value ==> s[k] != x
  {
    FindIndex(s, (y: T) => y == x)
  }

  /** `s.splice(i, 1)`: drop the element at position `i`. */
  function RemoveAt<T>(s: seq<T>, i: nat): (r: seq<T>)
    requires i < |s|
    ensures |r| == |s| - 1
    ensures forall k :: 0 <= k < i ==> r[k] == s[k]
    ensures forall k :: i <= k < |r| ==> r[k] == s[k + 1]
    ensures multiset(r) == multiset(s) - multiset{s[i]}
  {
    assert s == s[..i] + [s[i]] + s[i + 1..];
    s[..i] + s[i + 1..]
  }

  /** Removing the first occurrence of `x` from a list without duplicates
      leaves a list without duplicates that no longer holds `x` and holds
      everything else it held before. */
  lemma RemoveFirstFromDistinct<T>(s: seq<T>, x: T)
    requires NoDuplicates(s)
    requires x in s
    ensures IndexOf(s, x).Some?
    ensures var r := RemoveAt(s, IndexOf(s, x).value);
      && NoDuplicates(r)
      && x !in r
      && forall y :: y in r <==> y in s && y != x
  {
    var i := IndexOf(s, x).value;
    var r := RemoveAt(s, i);
    forall y | y in r
      ensures y in s && y != x
    {
      var k :| 0 <= k < |r| && r[k] == y;
      if k < i {
        assert r[k] == s[k];
      } else {
        assert r[k] == s[k + 1];
      }
    }
    forall y | y in s && y != x
      ensures y in r
    {
      var k :| 0 <= k < |s| && s[k] == y;
      if k < i {
        assert r[k] == y;
      } else {
        assert k != i;
        assert r[k - 1] == y;
      }
    }
  }

  /** Appending an element the list does not yet hold keeps it duplicate-free. */
  lemma AppendFreshKeepsDistinct<T>(s: seq<T>, x: T)
    requires NoDuplicates(s)
    requires x !in s
    ensures NoDuplicates(s + [x])
  {
  }
}
