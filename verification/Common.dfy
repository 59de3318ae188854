/** Result types and the order in which paths are listed and sorted. */
module Common {

  datatype Option<+T> = None | Some(value: T)

  datatype Result<+T, +E> = Ok(value: T) | Err(error: E)

  type Path = string

  datatype Content = Content(hash: string, size: nat)
}

/** Counting and summing over a sequence, and comparing finite sets by size. */
module Counting {

  lemma SubsetIsSmaller<T>(a: set<T>, b: set<T>)
    requires a <= b
    ensures |a| <= |b|
  {
    assert b == a + (b - a);
  }

  lemma SubsetOfSameSize<T>(a: set<T>, b: set<T>)
    requires a <= b && |a| >= |b|
    ensures a == b
  {
    assert b == a + (b - a);
  }

  function Count<T>(s: seq<T>, p: T -> bool): nat
  {
    if s == [] then 0 else Count(s[..|s|-1], p) + (if p(s[|s|-1]) then 1 else 0)
  }

  lemma {:induction false} CountConcat<T>(a: seq<T>, b: seq<T>, p: T -> bool)
    ensures Count(a + b, p) == Count(a, p) + Count(b, p)
  {
    if b == [] {
      assert a + b == a;
    } else {
      assert (a + b)[..|a + b| - 1] == a + b[..|b|-1];
      CountConcat(a, b[..|b|-1], p);
    }
  }

  lemma {:induction false} CountUpdate<T>(s: seq<T>, k: nat, x: T, p: T -> bool)
    requires k < |s|
    ensures Count(s[k := x], p) + (if p(s[k]) then 1 else 0) == Count(s, p) + (if p(x) then 1 else 0)
  {
    var t := s[k := x];
    if k == |s| - 1 {
      assert t[..k] == s[..k];
    } else {
      assert t[..|t|-1] == s[..|s|-1][k := x];
      CountUpdate(s[..|s|-1], k, x, p);
    }
  }

  lemma {:induction false} CountPush<T>(s: seq<T>, x: T, p: T -> bool)
    ensures Count(s + [x], p) == Count(s, p) + (if p(x) then 1 else 0)
  {
    assert (s + [x])[..|s|] == s;
  }

  lemma {:induction false} CountShrinks<T>(s: seq<T>, t: seq<T>, p: T -> bool)
    requires |s| == |t| && forall i :: 0 <= i < |s| && p(t[i]) ==> p(s[i])
    ensures Count(t, p) <= Count(s, p)
  {
    if s != [] {
      CountShrinks(s[..|s|-1], t[..|t|-1], p);
    }
  }

  lemma RepeatCountsTwice<T>(s: seq<T>, i: nat, j: nat)
    requires i < j < |s|
    ensures s[i] == s[j] ==> multiset(s)[s[j]] >= 2
  {
    assert s == s[..j] + ([s[j]] + s[j+1..]);
    assert s[i] in s[..j];
    assert multiset(s) == multiset(s[..j]) + multiset([s[j]] + s[j+1..]);
    assert s[j] in [s[j]] + s[j+1..];
  }

  /** The positions of the elements that satisfy `p`. */
  ghost function Positions<T>(s: seq<T>, p: T -> bool): set<int>
  {
    set k | 0 <= k < |s| && p(s[k])
  }

  lemma {:induction false} CountIsPositions<T>(s: seq<T>, p: T -> bool)
    ensures Count(s, p) == |Positions(s, p)|
  {
    if s == [] {
      assert Positions(s, p) == {};
    } else {
      var most, n := s[..|s|-1], |s| - 1;
      CountIsPositions(most, p);
      assert Positions(s, p) == if p(s[n]) then Positions(most, p) + {n} else Positions(most, p);
    }
  }

  function Sum<T>(s: seq<T>, w: T -> nat): nat
  {
    if s == [] then 0 else Sum(s[..|s|-1], w) + w(s[|s|-1])
  }

  lemma {:induction false} SumShrinks<T>(s: seq<T>, t: seq<T>, w: T -> nat)
    requires |s| == |t| && forall i :: 0 <= i < |s| ==> w(t[i]) <= w(s[i])
    ensures Sum(t, w) <= Sum(s, w)
    ensures (exists i :: 0 <= i < |s| && w(t[i]) < w(s[i])) ==> Sum(t, w) < Sum(s, w)
  {
    if s != [] {
      SumShrinks(s[..|s|-1], t[..|t|-1], w);
      if i :| 0 <= i < |s| && w(t[i]) < w(s[i]) {
        if i < |s| - 1 {
          assert w(t[..|t|-1][i]) < w(s[..|s|-1][i]);
        }
      }
    }
  }
}

/** Byte order on paths: the order of `BTreeMap`, `BTreeSet`, `sort` and `ORDER BY`. */
module PathOrder {
  import opened Common
  import opened Counting

  predicate AtMost(a: Path, b: Path)
  {
    if a == [] then true
    else if b == [] then false
    else a[0] < b[0] || (a[0] == b[0] && AtMost(a[1..], b[1..]))
  }

  predicate Below(a: Path, b: Path)
  {
    a != b && AtMost(a, b)
  }

  lemma {:induction false} Total(a: Path, b: Path)
    ensures AtMost(a, b) || AtMost(b, a)
  {
    if a != [] && b != [] && a[0] == b[0] {
      Total(a[1..], b[1..]);
    }
  }

  lemma {:induction false} Antisymmetric(a: Path, b: Path)
    requires AtMost(a, b) && AtMost(b, a)
    ensures a == b
  {
    if a != [] && b != [] {
      Antisymmetric(a[1..], b[1..]);
      assert a == [a[0]] + a[1..] && b == [b[0]] + b[1..];
    }
  }

  lemma {:induction false} Transitive(a: Path, b: Path, c: Path)
    requires AtMost(a, b) && AtMost(b, c)
    ensures AtMost(a, c)
  {
    if a != [] && b != [] && c != [] && a[0] == b[0] == c[0] {
      Transitive(a[1..], b[1..], c[1..]);
    }
  }

  predicate IsLeast(p: Path, s: set<Path>)
  {
    p in s && forall q :: q in s ==> AtMost(p, q)
  }

  lemma {:induction false} LeastExists(s: set<Path>)
    requires s != {}
    ensures exists p :: IsLeast(p, s)
  {
    var p :| p in s;
    Total(p, p);
    if s == {p} {
      assert IsLeast(p, s);
    } else {
      LeastExists(s - {p});
      var other :| IsLeast(other, s - {p});
      Total(p, other);
      if AtMost(p, other) {
        forall q | q in s && q != p ensures AtMost(p, q) {
          Transitive(p, other, q);
        }
        assert IsLeast(p, s);
      } else {
        assert IsLeast(other, s);
      }
    }
  }

  lemma LeastUnique(s: set<Path>, p: Path, q: Path)
    requires IsLeast(p, s) && IsLeast(q, s)
    ensures p == q
  {
    Antisymmetric(p, q);
  }

  function Least(s: set<Path>): (least: Path)
    requires s != {}
    ensures IsLeast(least, s)
  {
    LeastExists(s);
    assert forall p, q | IsLeast(p, s) && IsLeast(q, s) :: p == q by {
      forall p, q | IsLeast(p, s) && IsLeast(q, s) ensures p == q {
        LeastUnique(s, p, q);
      }
    }
    var p :| p in s && IsLeast(p, s);
    p
  }

  /** The elements of a set in ascending order. */
  function Listing(s: set<Path>): (r: seq<Path>)
    ensures forall p :: p in r <==> p in s
    ensures forall i, j :: 0 <= i < j < |r| ==> Below(r[i], r[j])
  {
    if s == {} then []
    else
      var least := Least(s);
      [least] + Listing(s - {least})
  }

  lemma ListingOne(p: Path)
    ensures Listing({p}) == [p]
  {
    assert Least({p}) == p && {p} - {p} == {};
  }

  lemma LeastOfTwo(p: Path, q: Path)
    requires Below(p, q)
    ensures Least({p, q}) == p
  {
    if Least({p, q}) == q { Antisymmetric(p, q); }
  }

  lemma ListingTwo(p: Path, q: Path)
    requires Below(p, q)
    ensures Listing({p, q}) == [p, q]
  {
    LeastOfTwo(p, q);
    ListingOne(q);
    assert {p, q} - {p} == {q};
    assert Listing({p, q}) == [p] + Listing({p, q} - {p});
  }

  // --- a stable sort by path, as `sort_by` with a path key -------------------

  /** Where a stable insertion puts `x`: before the first element whose key is not below x's. */
  function Slot<T>(x: T, s: seq<T>, key: T -> Path): (k: nat)
    ensures k <= |s|
    ensures forall i :: 0 <= i < k ==> Below(key(s[i]), key(x))
    ensures k < |s| ==> !Below(key(s[k]), key(x))
  {
    if s == [] || !Below(key(s[0]), key(x)) then 0 else 1 + Slot(x, s[1..], key)
  }

  function SortBy<T>(s: seq<T>, key: T -> Path): seq<T>
  {
    if s == [] then [] else InsertBy(s[0], SortBy(s[1..], key), key)
  }

  function InsertBy<T>(x: T, s: seq<T>, key: T -> Path): seq<T>
  {
    var k := Slot(x, s, key);
    s[..k] + [x] + s[k..]
  }

  ghost predicate Ascending<T>(s: seq<T>, key: T -> Path)
  {
    forall i, j :: 0 <= i < j < |s| ==> AtMost(key(s[i]), key(s[j]))
  }

  lemma {:induction false} SortByAscends<T>(s: seq<T>, key: T -> Path)
    ensures Ascending(SortBy(s, key), key)
  {
    if s != [] {
      var rest := SortBy(s[1..], key);
      SortByAscends(s[1..], key);
      var k := Slot(s[0], rest, key);
      var r := SortBy(s, key);
      assert forall i :: 0 <= i < |r| ==> r[i] == if i < k then rest[i] else if i == k then s[0] else rest[i-1];
      forall i, j | 0 <= i < j < |r| ensures AtMost(key(r[i]), key(r[j])) {
        if i == k {
          Total(key(rest[k]), key(s[0]));
          Total(key(rest[k]), key(rest[k]));
          if k < j - 1 {
            Transitive(key(s[0]), key(rest[k]), key(rest[j-1]));
          }
        } else if i < k && j > k {
          if j - 1 > i { assert AtMost(key(rest[i]), key(rest[j-1])); }
        }
      }
    }
  }

  lemma {:induction false} SortByPermutes<T>(s: seq<T>, key: T -> Path)
    ensures multiset(SortBy(s, key)) == multiset(s)
  {
    if s != [] {
      var rest := SortBy(s[1..], key);
      SortByPermutes(s[1..], key);
      var k := Slot(s[0], rest, key);
      InsertedOnce(s[0], rest, k);
      assert s == [s[0]] + s[1..];
    }
  }

  lemma InsertedOnce<T>(x: T, s: seq<T>, k: nat)
    requires k <= |s|
    ensures multiset(s[..k] + [x] + s[k..]) == multiset(s) + multiset{x}
  {
    assert s == s[..k] + s[k..];
  }

  lemma SortByMember<T>(s: seq<T>, key: T -> Path, x: T)
    ensures x in SortBy(s, key) <==> x in s
  {
    SortByPermutes(s, key);
    assert x in SortBy(s, key) <==> x in multiset(SortBy(s, key));
    assert x in s <==> x in multiset(s);
  }

  // --- facts about every pair of elements survive reordering ------------------

  ghost predicate Pairwise<T>(s: seq<T>, apart: (T, T) -> bool)
  {
    forall i, j :: 0 <= i < |s| && 0 <= j < |s| && i != j ==> apart(s[i], s[j])
  }

  lemma {:induction false} SortByKeepsPairwise<T>(s: seq<T>, key: T -> Path, apart: (T, T) -> bool)
    requires Pairwise(s, apart)
    ensures Pairwise(SortBy(s, key), apart)
  {
    if s != [] {
      var rest := SortBy(s[1..], key);
      assert Pairwise(s[1..], apart);
      SortByKeepsPairwise(s[1..], key, apart);
      forall y | y in rest ensures apart(s[0], y) && apart(y, s[0]) {
        SortByMember(s[1..], key, y);
        var j :| 0 <= j < |s[1..]| && s[1..][j] == y;
        assert s[j+1] == y;
      }
      InsertKeepsPairwise(s[0], rest, Slot(s[0], rest, key), apart);
    }
  }

  lemma InsertKeepsPairwise<T>(x: T, s: seq<T>, k: nat, apart: (T, T) -> bool)
    requires k <= |s|
    requires Pairwise(s, apart) && forall y :: y in s ==> apart(x, y) && apart(y, x)
    ensures Pairwise(s[..k] + [x] + s[k..], apart)
  {
    var r := s[..k] + [x] + s[k..];
    forall i, j | 0 <= i < |r| && 0 <= j < |r| && i != j ensures apart(r[i], r[j]) {
      var i', j' := if i < k then i else i - 1, if j < k then j else j - 1;
      if i == k { assert r[j] == s[j']; }
      else if j == k { assert r[i] == s[i']; }
      else { assert r[i] == s[i'] && r[j] == s[j'] && i' != j'; }
    }
  }

  // --- counting ----------------------------------------------------------------

  lemma {:induction false} SortByKeepsCount<T>(s: seq<T>, key: T -> Path, p: T -> bool)
    ensures Count(SortBy(s, key), p) == Count(s, p)
  {
    if s != [] {
      var rest := SortBy(s[1..], key);
      SortByKeepsCount(s[1..], key, p);
      var k := Slot(s[0], rest, key);
      assert s == [s[0]] + s[1..];
      assert rest == rest[..k] + rest[k..];
      CountConcat([s[0]], s[1..], p);
      CountConcat(rest[..k], rest[k..], p);
      CountConcat(rest[..k] + [s[0]], rest[k..], p);
      CountConcat(rest[..k], [s[0]], p);
    }
  }
}
