/** The swap loop of a shuffle: which rearrangement every draw gives, and that each comes from exactly one. */
module Shuffles {
  import opened Counting

  function Swap<T>(s: seq<T>, i: nat, j: nat): seq<T>
    requires i < |s| && j < |s|
  {
    s[i := s[j]][j := s[i]]
  }

  /** `picks[k]` is drawn for position `n - 1 - k`, below or at it. */
  ghost predicate Legal(n: nat, picks: seq<nat>)
  {
    |picks| <= n && forall k :: 0 <= k < |picks| ==> picks[k] < n - k
  }

  /** The swaps in drawing order: the last position first. */
  function Swaps<T>(s: seq<T>, n: nat, picks: seq<nat>): seq<T>
    requires n <= |s| && Legal(n, picks)
    decreases n
  {
    if picks == [] then s
    else
      assert forall k :: 0 <= k < |picks[1..]| ==> picks[1..][k] == picks[k+1];
      Swaps(Swap(s, n - 1, picks[0]), n - 1, picks[1..])
  }

  /** One pick for every position but the first. */
  ghost predicate FullDraw(n: nat, picks: seq<nat>)
  {
    Legal(n, picks) && |picks| == if n == 0 then 0 else n - 1
  }

  lemma {:induction false} SwapsLength<T>(s: seq<T>, n: nat, picks: seq<nat>)
    requires n <= |s| && Legal(n, picks)
    ensures |Swaps(s, n, picks)| == |s|
    decreases n
  {
    if picks != [] {
      assert Legal(n - 1, picks[1..]);
      SwapsLength(Swap(s, n - 1, picks[0]), n - 1, picks[1..]);
    }
  }

  lemma LegalPush(n: nat, picks: seq<nat>, j: nat)
    requires Legal(n, picks) && |picks| < n && j < n - |picks|
    ensures Legal(n, picks + [j])
  {
  }

  lemma {:induction false} OneMoreSwap<T>(s: seq<T>, n: nat, picks: seq<nat>, j: nat)
    requires n <= |s| && Legal(n, picks) && |picks| < n && j < n - |picks|
    ensures Legal(n, picks + [j]) && |Swaps(s, n, picks)| == |s|
    ensures Swaps(s, n, picks + [j]) == Swap(Swaps(s, n, picks), n - 1 - |picks|, j)
    decreases n
  {
    var all := picks + [j];
    LegalPush(n, picks, j);
    SwapsLength(s, n, picks);
    if picks != [] {
      assert all[1..] == picks[1..] + [j];
      assert Legal(n - 1, picks[1..]);
      OneMoreSwap(Swap(s, n - 1, picks[0]), n - 1, picks[1..], j);
    } else {
      assert all[1..] == [];
    }
  }

  lemma SwapPermutes<T>(s: seq<T>, i: nat, j: nat)
    requires i < |s| && j < |s|
    ensures multiset(Swap(s, i, j)) == multiset(s)
  {
  }

  lemma {:induction false} SwapsPermute<T>(s: seq<T>, n: nat, picks: seq<nat>)
    requires n <= |s| && Legal(n, picks)
    ensures multiset(Swaps(s, n, picks)) == multiset(s)
    decreases n
  {
    if picks != [] {
      assert Legal(n - 1, picks[1..]);
      SwapPermutes(s, n - 1, picks[0]);
      SwapsPermute(Swap(s, n - 1, picks[0]), n - 1, picks[1..]);
    }
  }

  lemma {:induction false} TailIsSettled<T>(s: seq<T>, n: nat, picks: seq<nat>, i: nat)
    requires n <= i < |s| && Legal(n, picks)
    ensures |Swaps(s, n, picks)| == |s| && Swaps(s, n, picks)[i] == s[i]
    decreases n
  {
    if picks != [] {
      assert Legal(n - 1, picks[1..]);
      TailIsSettled(Swap(s, n - 1, picks[0]), n - 1, picks[1..], i);
    }
  }

  ghost predicate Distinct<T>(s: seq<T>)
  {
    forall i, j :: 0 <= i < j < |s| ==> s[i] != s[j]
  }

  /** Different draws rearrange differently. */
  lemma {:induction false} ShuffleIsInjective<T>(s: seq<T>, n: nat, p: seq<nat>, q: seq<nat>)
    requires n <= |s| && Distinct(s) && FullDraw(n, p) && FullDraw(n, q)
    requires Swaps(s, n, p) == Swaps(s, n, q)
    ensures p == q
    decreases n
  {
    if n > 1 {
      assert FullDraw(n - 1, p[1..]) && FullDraw(n - 1, q[1..]);
      TailIsSettled(Swap(s, n - 1, p[0]), n - 1, p[1..], n - 1);
      TailIsSettled(Swap(s, n - 1, q[0]), n - 1, q[1..], n - 1);
      assert s[p[0]] == s[q[0]];
      ShuffleIsInjective(Swap(s, n - 1, p[0]), n - 1, p[1..], q[1..]);
      assert p == [p[0]] + p[1..] && q == [q[0]] + q[1..];
    }
  }

  lemma {:induction false} DistinctCountsOnce<T>(s: seq<T>, x: T)
    requires Distinct(s)
    ensures multiset(s)[x] <= 1
  {
    if s != [] {
      var most := s[..|s|-1];
      DistinctCountsOnce(most, x);
      assert s == most + [s[|s|-1]];
      if s[|s|-1] == x {
        assert x !in most;
      }
    }
  }

  lemma RearrangementIsDistinct<T>(s: seq<T>, t: seq<T>)
    requires Distinct(s) && multiset(t) == multiset(s)
    ensures Distinct(t)
  {
    forall i, j | 0 <= i < j < |t| ensures t[i] != t[j] {
      DistinctCountsOnce(s, t[j]);
      RepeatCountsTwice(t, i, j);
    }
  }

  /** Where the element that must end up at `n - 1` is now. */
  lemma PickFor<T>(s: seq<T>, t: seq<T>, n: nat) returns (j: nat)
    requires 0 < n <= |s| == |t| && Distinct(s) && multiset(t) == multiset(s)
    requires forall i :: n <= i < |s| ==> t[i] == s[i]
    ensures j < n && s[j] == t[n-1]
  {
    RearrangementIsDistinct(s, t);
    assert t[n-1] in multiset(t);
    assert t[n-1] in s;
    j :| 0 <= j < |s| && s[j] == t[n-1];
  }

  /** Every rearrangement comes from some draw. */
  lemma {:induction false} ShuffleIsSurjective<T>(s: seq<T>, t: seq<T>, n: nat) returns (picks: seq<nat>)
    requires n <= |s| == |t| && Distinct(s) && multiset(t) == multiset(s)
    requires forall i :: n <= i < |s| ==> t[i] == s[i]
    ensures FullDraw(n, picks) && Swaps(s, n, picks) == t
    decreases n
  {
    picks := [];
    if n == 0 {
      assert s == t;
    } else {
      var j := PickFor(s, t, n);
      if n == 1 {
        assert s == t;
      } else {
        SwapPermutes(s, n - 1, j);
        var rest := ShuffleIsSurjective(Swap(s, n - 1, j), t, n - 1);
        picks := [j] + rest;
        assert picks[1..] == rest;
        forall k | 0 <= k < |picks| ensures picks[k] < n - k {
          if k > 0 { assert picks[k] == rest[k-1]; }
        }
      }
    }
  }

  /** Each rearrangement of distinct elements comes from exactly one full draw. */
  lemma ShuffleIsUnbiased<T>(s: seq<T>, t: seq<T>)
    requires Distinct(s) && multiset(t) == multiset(s)
    ensures exists p :: FullDraw(|s|, p) && Swaps(s, |s|, p) == t
                        && forall q :: FullDraw(|s|, q) && Swaps(s, |s|, q) == t ==> q == p
  {
    assert |multiset(t)| == |multiset(s)|;
    var p := ShuffleIsSurjective(s, t, |s|);
    forall q | FullDraw(|s|, q) && Swaps(s, |s|, q) == t ensures q == p {
      ShuffleIsInjective(s, |s|, q, p);
    }
  }
}
