/** The in-place shuffle: from the back, swap each cell with one at or before it. */
module Shuffle {
  import opened Sequences

  /** One swap target per position: position `k` is swapped with one of `0..k`. */
  ghost predicate Choices(c: seq<nat>, n: nat) {
    |c| == n && forall k :: 0 <= k < n ==> c[k] <= k
  }

  function Swap<T>(s: seq<T>, i: nat, j: nat): (t: seq<T>)
    requires i < |s| && j < |s|
    ensures |t| == |s|
  {
    s[i := s[j]][j := s[i]]
  }

  /** The swaps of positions `i - 1` down to `1`. */
  function ShuffleFrom<T>(s: seq<T>, c: seq<nat>, i: nat): (t: seq<T>)
    requires i <= |s| == |c| && forall k :: 0 <= k < |c| ==> c[k] <= k
    ensures |t| == |s|
    decreases i
  {
    if i <= 1 then s else ShuffleFrom(Swap(s, i - 1, c[i - 1]), c, i - 1)
  }

  function Shuffled<T>(s: seq<T>, c: seq<nat>): (t: seq<T>)
    requires |s| == |c| && forall k :: 0 <= k < |c| ==> c[k] <= k
    ensures |t| == |s|
  {
    ShuffleFrom(s, c, |s|)
  }

  method ShuffleInPlace<T>(arr: seq<T>, c: seq<nat>) returns (out: seq<T>)
    requires Choices(c, |arr|)
    ensures out == Shuffled(arr, c)
    ensures multiset(out) == multiset(arr)
  {
    var a := new T[|arr|](i requires 0 <= i < |arr| => arr[i]);
    assert a[..] == arr;
    var i := |arr| - 1;
    while i > 0
      invariant -1 <= i < |arr|
      invariant ShuffleFrom(a[..], c, i + 1) == Shuffled(arr, c)
    {
      var j := c[i];
      ghost var before := a[..];
      a[i], a[j] := a[j], a[i];
      assert a[..] == Swap(before, i, j);
      i := i - 1;
    }
    out := a[..];
    ShufflePermutes(arr, c, |arr|);
  }

  lemma {:induction false} ShufflePermutes<T>(s: seq<T>, c: seq<nat>, i: nat)
    requires Choices(c, |s|) && i <= |s|
    ensures multiset(ShuffleFrom(s, c, i)) == multiset(s)
    decreases i
  {
    if i > 1 {
      ShufflePermutes(Swap(s, i - 1, c[i - 1]), c, i - 1);
    }
  }

  lemma ShuffleStep<T>(s: seq<T>, c: seq<nat>, i: nat)
    requires Choices(c, |s|) && 1 < i <= |s|
    ensures ShuffleFrom(s, c, i) == ShuffleFrom(Swap(s, i - 1, c[i - 1]), c, i - 1)
  {
  }

  /** Once passed, a position is never touched again. */
  lemma {:induction false} PassedPositionsStay<T>(s: seq<T>, c: seq<nat>, i: nat, k: nat)
    requires Choices(c, |s|) && i <= k < |s|
    ensures ShuffleFrom(s, c, i)[k] == s[k]
    decreases i
  {
    if i > 1 {
      PassedPositionsStay(Swap(s, i - 1, c[i - 1]), c, i - 1, k);
    }
  }

  lemma SwapKeepsDistinct<T>(s: seq<T>, i: nat, j: nat)
    requires Distinct(s) && i < |s| && j < |s|
    ensures Distinct(Swap(s, i, j))
  {
  }

  lemma {:induction false} EqualShufflesFrom<T>(s: seq<T>, c: seq<nat>, c': seq<nat>, i: nat)
    requires Distinct(s) && Choices(c, |s|) && Choices(c', |s|) && i <= |s|
    requires ShuffleFrom(s, c, i) == ShuffleFrom(s, c', i)
    ensures c[..i] == c'[..i]
    decreases i
  {
    hide ShuffleFrom;
    if i > 1 {
      var j, j' := c[i - 1], c'[i - 1];
      ShuffleStep(s, c, i);
      ShuffleStep(s, c', i);
      PassedPositionsStay(Swap(s, i - 1, j), c, i - 1, i - 1);
      PassedPositionsStay(Swap(s, i - 1, j'), c', i - 1, i - 1);
      assert s[j] == s[j'];
      SwapKeepsDistinct(s, i - 1, j);
      EqualShufflesFrom(Swap(s, i - 1, j), c, c', i - 1);
      assert c[..i] == c[..i - 1] + [j] && c'[..i] == c'[..i - 1] + [j'];
    } else if i == 1 {
      assert c[0] == c'[0] == 0;
    }
  }

  /** Different choices shuffle distinct elements differently. */
  lemma ShuffleInjective<T>(s: seq<T>, c: seq<nat>, c': seq<nat>)
    requires Distinct(s) && Choices(c, |s|) && Choices(c', |s|)
    ensures Shuffled(s, c) == Shuffled(s, c') <==> c == c'
  {
    if Shuffled(s, c) == Shuffled(s, c') {
      EqualShufflesFrom(s, c, c', |s|);
      assert c == c[..|s|] && c' == c'[..|s|];
    }
  }

  lemma {:induction false} ChoicesReachFrom<T>(s: seq<T>, t: seq<T>, i: nat) returns (c: seq<nat>)
    requires i <= |s| == |t| && s[i..] == t[i..]
    requires multiset(s[..i]) == multiset(t[..i])
    ensures Choices(c, |s|) && ShuffleFrom(s, c, i) == t
    decreases i
  {
    if i <= 1 {
      c := seq(|s|, k => 0);
      if i == 1 {
        assert s[..1] == [s[0]] && t[..1] == [t[0]];
        assert t[0] in multiset(s[..1]);
      }
      assert s == s[..i] + s[i..] && t == t[..i] + t[i..];
    } else {
      assert t[i - 1] in t[..i];
      assert t[i - 1] in multiset(s[..i]);
      var j :| 0 <= j < i && s[j] == t[i - 1];
      SwapSettles(s, t, i, j);
      var below := ChoicesReachFrom(Swap(s, i - 1, j), t, i - 1);
      c := below[i - 1 := j];
      SameBelow(Swap(s, i - 1, j), below, c, i - 1);
    }
  }

  lemma SwapPermutes<T>(s: seq<T>, i: nat, j: nat)
    requires i < |s| && j < |s|
    ensures multiset(Swap(s, i, j)) == multiset(s)
  {
  }

  lemma LastApart<T>(s: seq<T>, i: nat)
    requires 0 < i <= |s|
    ensures multiset(s[..i]) == multiset(s[..i - 1]) + multiset{s[i - 1]}
    ensures s[i - 1..] == [s[i - 1]] + s[i..]
  {
    assert s[..i] == s[..i - 1] + [s[i - 1]];
  }

  lemma CancelOne<T>(a: multiset<T>, b: multiset<T>, x: T)
    requires a + multiset{x} == b + multiset{x}
    ensures a == b
  {
    assert a == (a + multiset{x}) - multiset{x} && b == (b + multiset{x}) - multiset{x};
  }

  /** Swapping the wanted element into place leaves a smaller rearrangement problem. */
  lemma SwapSettles<T>(s: seq<T>, t: seq<T>, i: nat, j: nat)
    requires j < i <= |s| == |t| && s[i..] == t[i..] && s[j] == t[i - 1]
    requires multiset(s[..i]) == multiset(t[..i])
    ensures Swap(s, i - 1, j)[i - 1..] == t[i - 1..]
    ensures multiset(Swap(s, i - 1, j)[..i - 1]) == multiset(t[..i - 1])
  {
    var swapped := Swap(s, i - 1, j);
    assert swapped[i..] == s[i..] && swapped[..i] == Swap(s[..i], i - 1, j) && swapped[i - 1] == t[i - 1];
    hide Swap;
    SwapPermutes(s[..i], i - 1, j);
    LastApart(swapped, i);
    LastApart(t, i);
    assert swapped[i - 1..] == t[i - 1..];
    CancelOne(multiset(swapped[..i - 1]), multiset(t[..i - 1]), t[i - 1]);
  }

  lemma {:induction false} SameBelow<T>(s: seq<T>, c: seq<nat>, c': seq<nat>, i: nat)
    requires Choices(c, |s|) && Choices(c', |s|) && i <= |s| && c[..i] == c'[..i]
    ensures ShuffleFrom(s, c, i) == ShuffleFrom(s, c', i)
    decreases i
  {
    if i > 1 {
      assert c[i - 1] == c[..i][i - 1] == c'[..i][i - 1] == c'[i - 1];
      assert c[..i - 1] == c[..i][..i - 1] == c'[..i - 1];
      SameBelow(Swap(s, i - 1, c[i - 1]), c, c', i - 1);
    }
  }

  /** Every rearrangement of the input is the result of some choices. */
  lemma ShuffleSurjective<T>(s: seq<T>, t: seq<T>) returns (c: seq<nat>)
    requires multiset(s) == multiset(t)
    ensures Choices(c, |s|) && Shuffled(s, c) == t
  {
    assert |s| == |multiset(s)| == |multiset(t)| == |t|;
    assert s[..|s|] == s && t[..|t|] == t;
    c := ChoicesReachFrom(s, t, |s|);
  }

  // ---- Counting the choices ----

  function Factorial(n: nat): nat {
    if n == 0 then 1 else n * Factorial(n - 1)
  }

  /** All choice vectors for `n` positions. */
  ghost function AllChoices(n: nat): set<seq<nat>> {
    if n == 0 then {[]} else Extended(AllChoices(n - 1), n)
  }

  ghost function Extended(cs: set<seq<nat>>, m: nat): set<seq<nat>> {
    set c, j: nat | c in cs && j < m :: c + [j]
  }

  ghost function WithLast(cs: set<seq<nat>>, j: nat): set<seq<nat>> {
    set c | c in cs :: c + [j]
  }

  lemma {:induction false} AllChoicesAreTheChoices(c: seq<nat>, n: nat)
    ensures c in AllChoices(n) <==> Choices(c, n)
    decreases n
  {
    if n > 0 {
      if Choices(c, n) {
        AllChoicesAreTheChoices(c[..n - 1], n - 1);
        assert c == c[..n - 1] + [c[n - 1]];
      }
      if c in AllChoices(n) {
        var c0, j: nat :| c0 in AllChoices(n - 1) && j < n && c == c0 + [j];
        AllChoicesAreTheChoices(c0, n - 1);
      }
    }
  }

  lemma {:induction false} ExtendedByOne(cs: set<seq<nat>>, j: nat)
    ensures |WithLast(cs, j)| == |cs|
    decreases |cs|
  {
    var ext := WithLast(cs, j);
    if cs != {} {
      var c0 :| c0 in cs;
      var rest := WithLast(cs - {c0}, j);
      ExtendedByOne(cs - {c0}, j);
      forall c | c in cs && c + [j] == c0 + [j] ensures c == c0 {
        assert c == (c + [j])[..|c|] && c0 == (c0 + [j])[..|c0|];
      }
      assert ext == rest + {c0 + [j]} && c0 + [j] !in rest;
    }
  }

  lemma ExtendedSplit(cs: set<seq<nat>>, m: nat)
    ensures Extended(cs, m + 1) == Extended(cs, m) + WithLast(cs, m)
    ensures Extended(cs, m) !! WithLast(cs, m)
  {
    var top, below := WithLast(cs, m), Extended(cs, m);
    forall x | x in below ensures x !in top {
      assert x[|x| - 1] != m;
    }
    forall x | x in Extended(cs, m + 1) ensures x in below + top {
      var c, j: nat :| c in cs && j < m + 1 && x == c + [j];
      if j < m {
        assert x in below;
      }
    }
  }

  lemma DisjointUnionSize<T>(a: set<T>, b: set<T>)
    requires a !! b
    ensures |a + b| == |a| + |b|
  {
  }

  lemma OneMore(m: int, k: int)
    ensures (m - 1) * k + k == m * k
  {
  }

  lemma {:induction false} ExtendedCount(cs: set<seq<nat>>, m: nat)
    ensures |Extended(cs, m)| == m * |cs|
  {
    if m == 0 {
      assert Extended(cs, 0) == {};
    } else {
      hide Extended, WithLast;
      var top, below := WithLast(cs, m - 1), Extended(cs, m - 1);
      ExtendedCount(cs, m - 1);
      ExtendedSplit(cs, m - 1);
      ExtendedByOne(cs, m - 1);
      DisjointUnionSize(below, top);
      OneMore(m, |cs|);
    }
  }

  /** There are exactly `n!` choice vectors, one per rearrangement of `n` distinct elements. */
  lemma {:induction false} ChoiceCount(n: nat)
    ensures |AllChoices(n)| == Factorial(n)
  {
    if n > 0 {
      ChoiceCount(n - 1);
      ExtendedCount(AllChoices(n - 1), n);
    }
  }
}
