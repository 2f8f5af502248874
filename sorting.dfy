// The order `std::sort(active, active + size)` leaves the feature list of
// fillFeatures in (src/training_data_loader.cpp). The library's algorithm is
// not part of this model: its result is pinned down by what it promises, an
// ascending permutation of its input, and `SortedUnique` shows that only one
// sequence keeps that promise, so any sorting function describes it.

module Sorting {

  /** Every element is at most every later one. */
  predicate Ascending(s: seq<nat>) {
    forall i, j :: 0 <= i < j < |s| ==> s[i] <= s[j]
  }

  /** Every element is below every later one. */
  predicate StrictlyAscending(s: seq<nat>) {
    forall i, j :: 0 <= i < j < |s| ==> s[i] < s[j]
  }

  /** No value occurs twice. */
  predicate Distinct(s: seq<nat>) {
    forall i, j :: 0 <= i < j < |s| ==> s[i] != s[j]
  }

  /** Dropping the first element keeps a sequence ascending. */
  lemma AscendingTail(s: seq<nat>)
    requires Ascending(s) && |s| > 0
    ensures Ascending(s[1..])
  {
    forall i, j | 0 <= i < j < |s| - 1
      ensures s[1..][i] <= s[1..][j]
    {
      assert s[1..][i] == s[i + 1] && s[1..][j] == s[j + 1];
    }
  }

  /** A least element in front of an ascending sequence keeps it ascending. */
  lemma AscendingCons(h: nat, t: seq<nat>)
    requires Ascending(t) && forall y :: y in t ==> h <= y
    ensures Ascending([h] + t)
  {
    forall i, j | 0 <= i < j < |t| + 1
      ensures ([h] + t)[i] <= ([h] + t)[j]
    {
      assert ([h] + t)[j] == t[j - 1];
      if i > 0 {
        assert ([h] + t)[i] == t[i - 1];
      } else {
        assert t[j - 1] in t;
      }
    }
  }

  /** `x` put into an ascending `s` before its first larger element. */
  function Insert(x: nat, s: seq<nat>): (r: seq<nat>)
    requires Ascending(s)
    ensures Ascending(r)
    ensures multiset(r) == multiset(s) + multiset{x}
    decreases |s|
  {
    if |s| == 0 then [x]
    else if x <= s[0] then
      assert forall y :: y in s ==> x <= y by {
        forall y | y in s
          ensures x <= y
        {
          AscendingHead(s, y);
        }
      }
      AscendingCons(x, s);
      [x] + s
    else
      AscendingTail(s);
      var t := Insert(x, s[1..]);
      assert s == [s[0]] + s[1..];
      assert forall y :: y in t ==> s[0] <= y by {
        forall y | y in t
          ensures s[0] <= y
        {
          assert y in multiset(s[1..]) + multiset{x};
          if y != x {
            assert y in s;
            AscendingHead(s, y);
          }
        }
      }
      AscendingCons(s[0], t);
      [s[0]] + t
  }

  /** Insertion sort: an ascending permutation of `s`. */
  function Sort(s: seq<nat>): (r: seq<nat>)
    ensures Ascending(r)
    ensures multiset(r) == multiset(s)
    ensures |r| == |s|
    decreases |s|
  {
    if |s| == 0 then []
    else
      assert s == [s[0]] + s[1..];
      Insert(s[0], Sort(s[1..]))
  }

  /** The first element of an ascending sequence is its least element. */
  lemma AscendingHead(s: seq<nat>, y: nat)
    requires Ascending(s) && |s| > 0 && y in s
    ensures s[0] <= y
  {
    var k :| 0 <= k < |s| && s[k] == y;
    if k > 0 {
      assert s[0] <= s[k];
    }
  }

  /** Two ascending permutations of the same values are equal, so std::sort has exactly
      one possible result. */
  lemma {:induction false} SortedUnique(a: seq<nat>, b: seq<nat>)
    requires Ascending(a) && Ascending(b) && multiset(a) == multiset(b)
    ensures a == b
    decreases |a|
  {
    assert |a| == |multiset(a)| == |b|;
    if |a| > 0 {
      assert a[0] in multiset(b) && b[0] in multiset(a);
      AscendingHead(a, b[0]);
      AscendingHead(b, a[0]);
      assert a == [a[0]] + a[1..] && b == [b[0]] + b[1..];
      assert multiset(a) == multiset{a[0]} + multiset(a[1..]);
      assert multiset(b) == multiset{b[0]} + multiset(b[1..]);
      assert a[0] == b[0];
      assert multiset(a[1..]) == multiset(a) - multiset{a[0]};
      assert multiset(b[1..]) == multiset(b) - multiset{b[0]};
      AscendingTail(a);
      AscendingTail(b);
      SortedUnique(a[1..], b[1..]);
    }
  }

  /** A value found at two positions is counted twice. */
  lemma TwiceCounted(s: seq<nat>, i: nat, j: nat)
    requires i < j < |s| && s[i] == s[j]
    ensures multiset(s)[s[i]] >= 2
  {
    assert s == s[..j] + s[j..];
    assert s[i] in s[..j] && s[j] in s[j..];
  }

  /** A value counted twice is found at two positions. */
  lemma {:induction false} CountedTwice(s: seq<nat>, x: nat) returns (i: nat, j: nat)
    requires multiset(s)[x] >= 2
    ensures i < j < |s| && s[i] == x && s[j] == x
    decreases |s|
  {
    assert s == [s[0]] + s[1..];
    if s[0] == x {
      assert x in multiset(s[1..]);
      var k :| 0 <= k < |s[1..]| && s[1..][k] == x;
      i, j := 0, k + 1;
    } else {
      var i', j' := CountedTwice(s[1..], x);
      i, j := i' + 1, j' + 1;
    }
  }

  /** Sorting a list without repeated values gives a strictly ascending list. */
  lemma SortDistinct(s: seq<nat>)
    requires Distinct(s)
    ensures StrictlyAscending(Sort(s))
  {
    var r := Sort(s);
    forall i, j | 0 <= i < j < |r|
      ensures r[i] < r[j]
    {
      if r[i] == r[j] {
        TwiceCounted(r, i, j);
        var i', j' := CountedTwice(s, r[i]);
        assert false;
      }
    }
  }

  /** Two lists without repeats, split by a threshold `t`, concatenate to a list without
      repeats. */
  lemma DistinctConcat(a: seq<nat>, b: seq<nat>, t: nat)
    requires Distinct(a) && Distinct(b)
    requires forall i :: 0 <= i < |a| ==> a[i] < t
    requires forall j :: 0 <= j < |b| ==> t <= b[j]
    ensures Distinct(a + b)
  {
    forall i, j | 0 <= i < j < |a + b|
      ensures (a + b)[i] != (a + b)[j]
    {
      if j < |a| {
        assert (a + b)[i] == a[i] && (a + b)[j] == a[j];
      } else if i >= |a| {
        assert (a + b)[i] == b[i - |a|] && (a + b)[j] == b[j - |a|];
      } else {
        assert (a + b)[i] == a[i] && (a + b)[j] == b[j - |a|];
      }
    }
  }
}
