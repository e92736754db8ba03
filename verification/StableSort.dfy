/** The stable sort both the allocator and `Subtitle::sort_entries` rely on,
    given as stable insertion, with the three facts that determine its result:
    it is ordered, it is a permutation, and ties keep their original order. */
module StableSort {

  ghost predicate TotalPreorder<T(!new)>(le: (T, T) -> bool) {
    && (forall x, y :: le(x, y) || le(y, x))
    && (forall x, y, z :: le(x, y) && le(y, z) ==> le(x, z))
  }

  ghost predicate Ordered<T>(s: seq<T>, le: (T, T) -> bool) {
    forall i, j | 0 <= i < j < |s| :: le(s[i], s[j])
  }

  /** Places `x` after every element that is not greater than it. */
  function Insert<T>(s: seq<T>, x: T, le: (T, T) -> bool): (r: seq<T>)
    ensures multiset(r) == multiset(s) + multiset{x}
  {
    if s == [] || le(s[|s| - 1], x) then s + [x]
    else
      assert s == s[..|s| - 1] + [s[|s| - 1]];
      Insert(s[..|s| - 1], x, le) + [s[|s| - 1]]
  }

  function Sort<T>(s: seq<T>, le: (T, T) -> bool): (r: seq<T>)
    ensures multiset(r) == multiset(s)
    ensures |r| == |s|
  {
    if s == [] then []
    else
      assert s == s[..|s| - 1] + [s[|s| - 1]];
      var r := Insert(Sort(s[..|s| - 1], le), s[|s| - 1], le);
      SameSize(r, s);
      r
  }

  lemma SameSize<T>(r: seq<T>, s: seq<T>)
    requires multiset(r) == multiset(s)
    ensures |r| == |s|
  {
    assert |multiset(r)| == |r| && |multiset(s)| == |s|;
  }

  lemma {:induction false} InsertOrdered<T(!new)>(s: seq<T>, x: T, le: (T, T) -> bool)
    requires TotalPreorder(le) && Ordered(s, le)
    ensures Ordered(Insert(s, x, le), le)
  {
    if s == [] || le(s[|s| - 1], x) {
    } else {
      var init, last := s[..|s| - 1], s[|s| - 1];
      InsertOrdered(init, x, le);
      var r := Insert(init, x, le);
      forall i | 0 <= i < |r|
        ensures le(r[i], last)
      {
        assert r[i] in multiset(r);
        assert r[i] == x || r[i] in init;
      }
    }
  }

  lemma {:induction false} SortOrdered<T(!new)>(s: seq<T>, le: (T, T) -> bool)
    requires TotalPreorder(le)
    ensures Ordered(Sort(s, le), le)
  {
    if s != [] {
      SortOrdered(s[..|s| - 1], le);
      InsertOrdered(Sort(s[..|s| - 1], le), s[|s| - 1], le);
    }
  }

  /** The elements of `s` that tie with `x`, in their order in `s`. */
  function Ties<T>(s: seq<T>, x: T, le: (T, T) -> bool): seq<T> {
    if s == [] then []
    else
      var last := s[|s| - 1];
      Ties(s[..|s| - 1], x, le) + (if le(last, x) && le(x, last) then [last] else [])
  }

  /** Two tied elements of a sequence appear in its ties in the same order. */
  lemma {:induction false} TiesKeepOrder<T>(s: seq<T>, x: T, le: (T, T) -> bool, a: nat, b: nat)
    returns (p: nat, q: nat)
    requires a < b < |s|
    requires le(s[a], x) && le(x, s[a]) && le(s[b], x) && le(x, s[b])
    ensures p < q < |Ties(s, x, le)| && Ties(s, x, le)[p] == s[a] && Ties(s, x, le)[q] == s[b]
  {
    var n := |s| - 1;
    if b < n {
      p, q := TiesKeepOrder(s[..n], x, le, a, b);
    } else {
      p := TieAt(s[..n], x, le, a);
      q := |Ties(s[..n], x, le)|;
    }
  }

  lemma {:induction false} TieAt<T>(s: seq<T>, x: T, le: (T, T) -> bool, a: nat) returns (p: nat)
    requires a < |s| && le(s[a], x) && le(x, s[a])
    ensures p < |Ties(s, x, le)| && Ties(s, x, le)[p] == s[a]
  {
    var n := |s| - 1;
    if a < n {
      p := TieAt(s[..n], x, le, a);
    } else {
      p := |Ties(s[..n], x, le)|;
    }
  }

  lemma {:induction false} InsertStable<T(!new)>(s: seq<T>, x: T, y: T, le: (T, T) -> bool)
    requires TotalPreorder(le) && Ordered(s, le)
    ensures Ties(Insert(s, x, le), y, le) == Ties(s + [x], y, le)
  {
    assert (s + [x])[..|s|] == s;
    if s == [] || le(s[|s| - 1], x) {
    } else {
      var init, last := s[..|s| - 1], s[|s| - 1];
      InsertStable(init, x, y, le);
      assert (init + [x])[..|init|] == init;
      var r := Insert(init, x, le) + [last];
      assert r[..|r| - 1] == Insert(init, x, le);
    }
  }

  /** Sorting never reorders elements that tie. */
  lemma {:induction false} SortStable<T(!new)>(s: seq<T>, y: T, le: (T, T) -> bool)
    requires TotalPreorder(le)
    ensures Ties(Sort(s, le), y, le) == Ties(s, y, le)
  {
    if s != [] {
      var init, last := s[..|s| - 1], s[|s| - 1];
      SortStable(init, y, le);
      SortOrdered(init, le);
      InsertStable(Sort(init, le), last, y, le);
      assert (Sort(init, le) + [last])[..|init|] == Sort(init, le);
    }
  }

  ghost predicate NoTies<T>(s: seq<T>, le: (T, T) -> bool) {
    forall i, j | 0 <= i < j < |s| :: !(le(s[i], s[j]) && le(s[j], s[i]))
  }

  /** Two ordered arrangements of the same elements are equal when no two of
      the elements tie. */
  lemma {:induction false} OrderedUnique<T(!new)>(s: seq<T>, t: seq<T>, le: (T, T) -> bool)
    requires TotalPreorder(le) && Ordered(s, le) && Ordered(t, le)
    requires NoTies(s, le) && NoTies(t, le)
    requires forall x :: x in s <==> x in t
    ensures s == t
  {
    assert s != [] ==> s[0] in t;
    assert t != [] ==> t[0] in s;
    if s != [] && t != [] {
      var m, n := |s| - 1, |t| - 1;
      LastAgrees(s, t, le);
      forall x
        ensures x in s[..m] <==> x in t[..n]
      {
        InInit(s, x, le);
        InInit(t, x, le);
      }
      OrderedUnique(s[..m], t[..n], le);
      assert s == s[..m] + [s[m]] && t == t[..n] + [t[n]];
    }
  }

  lemma LastAgrees<T(!new)>(s: seq<T>, t: seq<T>, le: (T, T) -> bool)
    requires Ordered(s, le) && Ordered(t, le) && NoTies(s, le)
    requires s != [] && t != [] && forall x :: x in s <==> x in t
    ensures s[|s| - 1] == t[|t| - 1]
  {
    var a, b := s[|s| - 1], t[|t| - 1];
    assert a in t && b in s;
    var i :| 0 <= i < |t| && t[i] == a;
    var j :| 0 <= j < |s| && s[j] == b;
    assert i == |t| - 1 || le(t[i], t[|t| - 1]);
  }

  lemma InInit<T(!new)>(s: seq<T>, x: T, le: (T, T) -> bool)
    requires TotalPreorder(le) && NoTies(s, le) && s != []
    ensures x in s[..|s| - 1] <==> x in s && x != s[|s| - 1]
  {
  }

  // ----- Multiplicity facts used to read permutations off multisets -----

  ghost predicate Distinct<T>(s: seq<T>) {
    forall i, j | 0 <= i < j < |s| :: s[i] != s[j]
  }

  lemma RepeatedCount<T>(s: seq<T>, i: nat, j: nat)
    requires i < j < |s| && s[i] == s[j]
    ensures multiset(s)[s[i]] >= 2
  {
    assert s == s[..j] + s[j..];
    assert s[i] in s[..j] && s[j] in s[j..];
  }

  lemma {:induction false} DistinctCount<T>(s: seq<T>, x: T)
    requires Distinct(s)
    ensures multiset(s)[x] <= 1
  {
    if s != [] {
      var n := |s| - 1;
      DistinctCount(s[..n], x);
      assert s == s[..n] + [s[n]];
      assert x == s[n] ==> x !in s[..n];
    }
  }

  /** A permutation of a sequence without repetitions has none either. */
  lemma PermutationDistinct<T>(s: seq<T>, t: seq<T>)
    requires multiset(s) == multiset(t) && Distinct(s)
    ensures Distinct(t)
  {
    forall i, j | 0 <= i < j < |t|
      ensures t[i] != t[j]
    {
      DistinctCount(s, t[i]);
      if t[i] == t[j] {
        RepeatedCount(t, i, j);
      }
    }
  }
}
