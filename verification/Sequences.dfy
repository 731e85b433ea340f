/** Notions about sequences and counts that several models share. */
module Sequences {

  ghost predicate Distinct<T>(s: seq<T>) {
    forall i, j :: 0 <= i < j < |s| ==> s[i] != s[j]
  }

  function Least(a: nat, b: nat): nat {
    if a <= b then a else b
  }

  lemma SameElementsStayDistinct<T>(s: seq<T>, t: seq<T>)
    requires multiset(s) == multiset(t) && Distinct(s)
    ensures Distinct(t) && |t| == |s|
    ensures forall x :: x in s <==> x in t
  {
    assert |s| == |multiset(s)| == |multiset(t)| == |t|;
    forall x ensures multiset(s)[x] <= 1 {
      OneOccurrence(s, x);
    }
    forall i, j | 0 <= i < j < |t| ensures t[i] != t[j] {
      if t[i] == t[j] {
        TwoOccurrences(t, i, j);
      }
    }
    forall x ensures x in s <==> x in t {
      assert x in s <==> x in multiset(s);
      assert x in t <==> x in multiset(t);
    }
  }

  lemma {:induction false} OneOccurrence<T>(s: seq<T>, x: T)
    requires Distinct(s)
    ensures multiset(s)[x] <= 1
  {
    if s != [] {
      var init, last := s[..|s| - 1], s[|s| - 1];
      assert s == init + [last];
      OneOccurrence(init, x);
      if x == last {
        assert x !in init;
        assert multiset(init)[x] == 0;
      }
    }
  }

  lemma TwoOccurrences<T>(s: seq<T>, i: nat, j: nat)
    requires i < j < |s| && s[i] == s[j]
    ensures multiset(s)[s[i]] >= 2
  {
    assert s == s[..j] + s[j..];
    assert s[i] == s[..j][i] && s[j] == s[j..][0];
    assert s[i] in multiset(s[..j]) && s[i] in multiset(s[j..]);
    assert multiset(s) == multiset(s[..j]) + multiset(s[j..]);
  }

  lemma SameElementsRearrange<T>(s: seq<T>, t: seq<T>)
    requires Distinct(s) && Distinct(t) && forall x :: x in s <==> x in t
    ensures multiset(s) == multiset(t)
  {
    forall x ensures multiset(s)[x] == multiset(t)[x] {
      OneOccurrence(s, x);
      OneOccurrence(t, x);
      assert x in s <==> x in multiset(s);
      assert x in t <==> x in multiset(t);
    }
  }

  /** The elements of `s` that are not in `t`. */
  function Minus<T(==, !new)>(s: seq<T>, t: seq<T>): (d: seq<T>)
    ensures forall x :: x in d <==> x in s && x !in t
  {
    if s == [] then []
    else
      var init, last := s[..|s| - 1], s[|s| - 1];
      assert s == init + [last];
      Minus(init, t) + if last in t then [] else [last]
  }

  lemma {:induction false} MinusDistinct<T(!new)>(s: seq<T>, t: seq<T>)
    requires Distinct(s)
    ensures Distinct(Minus(s, t))
  {
    if s != [] {
      var init := s[..|s| - 1];
      MinusDistinct(init, t);
      assert s[|s| - 1] !in init;
    }
  }

  /** Distinct elements of `s` can be moved to its front. */
  lemma MovedToFront<T(!new)>(s: seq<T>, t: seq<T>)
    requires Distinct(s) && Distinct(t) && forall x :: x in t ==> x in s
    ensures multiset(t + Minus(s, t)) == multiset(s)
  {
    MinusDistinct(s, t);
    var u := t + Minus(s, t);
    forall i, j | 0 <= i < j < |u| ensures u[i] != u[j] {
      if i < |t| <= j {
        assert u[j] == Minus(s, t)[j - |t|] && u[j] in Minus(s, t);
      }
    }
    forall x ensures x in s <==> x in u {
    }
    SameElementsRearrange(u, s);
  }

  /** `at` holds exactly the chosen ones of the first `n` positions, in order. */
  ghost predicate Positions(at: seq<nat>, n: nat, chosen: nat -> bool) {
    && (forall i, j :: 0 <= i < j < |at| ==> at[i] < at[j])
    && (forall k: nat :: k in at <==> k < n && chosen(k))
  }

  lemma PositionsMore(at: seq<nat>, n: nat, chosen: nat -> bool)
    requires Positions(at, n, chosen)
    ensures Positions(if chosen(n) then at + [n] else at, n + 1, chosen)
  {
    forall i | 0 <= i < |at| ensures at[i] < n {
      assert at[i] in at;
    }
  }

  lemma PositionsAlike(at: seq<nat>, n: nat, chosen: nat -> bool, chosen': nat -> bool)
    requires Positions(at, n, chosen) && forall k: nat :: k < n ==> chosen(k) == chosen'(k)
    ensures Positions(at, n, chosen')
  {
  }
}
