/**
 * The list operations of the .NET library the core relies on, on sequences:
 * Enumerable.Distinct, HashSet.Add (an insertion-ordered set) and List.Remove.
 */
module Collections {

  /** No element occurs twice. */
  ghost predicate NoDup<T>(s: seq<T>) {
    forall i, j :: 0 <= i < j < |s| ==> s[i] != s[j]
  }

  /** The index of the first occurrence of `x` in `s`. */
  function FirstIndex<T(==)>(s: seq<T>, x: T): (i: nat)
    requires x in s
    ensures i < |s| && s[i] == x
    ensures forall j :: 0 <= j < i ==> s[j] != x
  {
    if s[0] == x then 0 else 1 + FirstIndex(s[1..], x)
  }

  /** HashSet.Add on an insertion-ordered set: append `x` unless it is already there. */
  function SetAdd<T(==)>(s: seq<T>, x: T): (r: seq<T>)
    ensures x in r && |s| <= |r| <= |s| + 1 && r[..|s|] == s
  {
    if x in s then s else s + [x]
  }

  /** SetAdd keeps a set a set, and adds `x` and nothing else. */
  lemma SetAddSpec<T>(s: seq<T>, x: T)
    ensures var r := SetAdd(s, x);
      (NoDup(s) ==> NoDup(r))
      && (forall k :: 0 <= k < |s| ==> s[k] in r)
      && (forall k :: 0 <= k < |r| ==> r[k] in s || r[k] == x)
  {
  }

  /** Enumerable.Distinct: the first occurrence of every element, in order. */
  function Distinct<T(==)>(s: seq<T>): (r: seq<T>)
    ensures |r| <= |s|
  {
    if |s| == 0 then [] else SetAdd(Distinct(s[..|s| - 1]), s[|s| - 1])
  }

  /** Distinct has no repetitions and holds exactly the elements of its input. */
  lemma {:induction false} DistinctSpec<T>(s: seq<T>)
    ensures var r := Distinct(s);
      NoDup(r) && (forall k :: 0 <= k < |s| ==> s[k] in r) && (forall k :: 0 <= k < |r| ==> r[k] in s)
  {
    if |s| > 0 {
      var n := |s| - 1;
      var s0 := s[..n];
      var d := Distinct(s0);
      DistinctSpec(s0);
      SetAddSpec(d, s[n]);
      var r := Distinct(s);
      assert r == SetAdd(d, s[n]);
      forall k | 0 <= k < |s|
        ensures s[k] in r
      {
        if k < n {
          assert s[k] == s0[k];
        }
      }
      forall k | 0 <= k < |r|
        ensures r[k] in s
      {
        if r[k] != s[n] {
          assert r[k] in d;
          var j :| 0 <= j < |d| && d[j] == r[k];
          assert d[j] in s0;
          var i :| 0 <= i < n && s0[i] == d[j];
          assert s[i] == r[k];
        }
      }
    }
  }

  /** Distinct keeps the order of first occurrences: an element that first occurs earlier in `s` comes earlier in the result. */
  lemma {:induction false} DistinctKeepsFirstOrder<T>(s: seq<T>, i: nat, j: nat)
    requires i < j < |Distinct(s)|
    ensures Distinct(s)[i] in s && Distinct(s)[j] in s
    ensures FirstIndex(s, Distinct(s)[i]) < FirstIndex(s, Distinct(s)[j])
  {
    var n := |s| - 1;
    var d := Distinct(s[..n]);
    var r := Distinct(s);
    DistinctSpec(s[..n]);
    DistinctSpec(s);
    assert s == s[..n] + [s[n]];
    assert r[..|d|] == d;
    assert r[i] == d[i] && d[i] in s[..n];
    FirstIndexPrefix(s[..n], [s[n]], d[i]);
    if j < |d| {
      DistinctKeepsFirstOrder(s[..n], i, j);
      assert r[j] == d[j] && d[j] in s[..n];
      FirstIndexPrefix(s[..n], [s[n]], d[j]);
    } else {
      // r[j] is s[n], appended because it does not occur in s[..n].
      assert r[j] == s[n] && s[n] !in s[..n];
      assert forall k :: 0 <= k < n ==> s[k] == s[..n][k] != s[n];
    }
  }

  /** First occurrences inside a prefix are not moved by appending. */
  lemma {:induction false} FirstIndexPrefix<T>(s: seq<T>, t: seq<T>, x: T)
    requires x in s
    ensures FirstIndex(s + t, x) == FirstIndex(s, x)
  {
    if s[0] != x {
      assert (s + t)[1..] == s[1..] + t;
      FirstIndexPrefix(s[1..], t, x);
    }
  }

  /** Distinct leaves a sequence without repetitions as it is. */
  lemma {:induction false} DistinctOfNoDup<T>(s: seq<T>)
    requires NoDup(s)
    ensures Distinct(s) == s
  {
    if |s| > 0 {
      var n := |s| - 1;
      DistinctOfNoDup(s[..n]);
      assert s[n] !in s[..n];
      assert s[..n] + [s[n]] == s;
    }
  }

  /** List.Remove: drop the first occurrence of `x`, if any. */
  function RemoveFirst<T(==)>(s: seq<T>, x: T): (r: seq<T>)
    ensures x !in s ==> r == s
    ensures x in s ==> |r| == |s| - 1
    ensures multiset(r) == multiset(s) - multiset{x}
  {
    if |s| == 0 then []
    else if s[0] == x then assert s == [s[0]] + s[1..]; s[1..]
    else assert s == [s[0]] + s[1..]; [s[0]] + RemoveFirst(s[1..], x)
  }
}
