/** Rejection sampling: every residue is equally likely. */
module Sampling {
  const U32_MAX: nat := 0xFFFF_FFFF

  function RejectionLimit(bound: nat): nat
    requires 0 < bound <= U32_MAX
  {
    U32_MAX - U32_MAX % bound
  }

  function Candidates(n: nat, bound: nat, residue: nat): set<nat>
    requires bound > 0
  {
    set c: nat | c < n && c % bound == residue
  }

  lemma MultiplesAreFar(bound: int, k: int)
    requires bound >= 0
    ensures k >= 1 ==> bound * k >= bound
    ensures k <= -1 ==> bound * k <= -bound
  {
  }

  lemma QuotientUnique(bound: nat, q: nat, r: nat)
    requires r < bound
    ensures (q * bound + r) % bound == r && (q * bound + r) / bound == q
  {
    var x := q * bound + r;
    var d := x / bound - q;
    assert x == bound * (x / bound) + x % bound;
    assert bound * d == r - x % bound;
    MultiplesAreFar(bound, d);
  }

  lemma NextClass(bound: nat, q: nat, residue: nat)
    requires residue < bound
    ensures Candidates(q * bound + bound, bound, residue)
            == Candidates(q * bound, bound, residue) + {q * bound + residue}
  {
    QuotientUnique(bound, q, residue);
    forall c: nat | q * bound <= c < q * bound + bound ensures c % bound == c - q * bound {
      QuotientUnique(bound, q, c - q * bound);
    }
  }

  /** `q` bounds added up. */
  function Multiple(bound: nat, q: nat): nat
  {
    if q == 0 then 0 else Multiple(bound, q - 1) + bound
  }

  lemma {:induction false} MultipleIs(bound: nat, q: nat)
    ensures Multiple(bound, q) == q * bound
  {
    if q > 0 {
      MultipleIs(bound, q - 1);
      assert q * bound == (q - 1) * bound + bound;
    }
  }

  lemma NextClassAt(bound: nat, q: nat, residue: nat)
    requires residue < bound
    ensures Candidates(Multiple(bound, q) + bound, bound, residue)
            == Candidates(Multiple(bound, q), bound, residue) + {Multiple(bound, q) + residue}
  {
    MultipleIs(bound, q);
    NextClass(bound, q, residue);
  }

  lemma OneMore(n: nat, bound: nat, residue: nat, x: nat)
    requires bound > 0 && x >= n
    ensures |Candidates(n, bound, residue) + {x}| == |Candidates(n, bound, residue)| + 1
  {
    assert x !in Candidates(n, bound, residue);
  }

  lemma OneClassMore(bound: nat, q: nat, residue: nat)
    requires residue < bound
    ensures |Candidates(Multiple(bound, q + 1), bound, residue)| == |Candidates(Multiple(bound, q), bound, residue)| + 1
  {
    NextClassAt(bound, q, residue);
    OneMore(Multiple(bound, q), bound, residue, Multiple(bound, q) + residue);
  }

  lemma NoCandidates(bound: nat, residue: nat)
    requires bound > 0
    ensures Candidates(0, bound, residue) == {}
  {
  }

  lemma {:induction false} EqualClasses(bound: nat, q: nat, residue: nat)
    requires residue < bound
    ensures |Candidates(Multiple(bound, q), bound, residue)| == q
  {
    if q == 0 {
      NoCandidates(bound, residue);
    } else {
      EqualClasses(bound, q - 1, residue);
      OneClassMore(bound, q - 1, residue);
    }
  }

  /** Every residue has exactly as many accepted 32-bit candidates as every other. */
  lemma SamplingIsUnbiased(bound: nat, residue: nat)
    requires 0 < bound <= U32_MAX && residue < bound
    ensures |Candidates(RejectionLimit(bound), bound, residue)| == U32_MAX / bound > 0
  {
    var q := U32_MAX / bound;
    assert U32_MAX == bound * q + U32_MAX % bound;
    assert RejectionLimit(bound) == q * bound;
    MultipleIs(bound, q);
    EqualClasses(bound, q, residue);
  }

  /** Values below the bound are never rejected. */
  lemma LimitIsHigh(bound: nat)
    requires 0 < bound <= U32_MAX
    ensures RejectionLimit(bound) >= bound
  {
    SamplingIsUnbiased(bound, 0);
    var q := U32_MAX / bound;
    assert U32_MAX == bound * q + U32_MAX % bound;
    MultiplesAreFar(bound, q);
  }

  lemma SmallIsItself(x: nat, bound: nat)
    requires x < bound
    ensures x % bound == x
  {
    QuotientUnique(bound, 0, x);
  }
}
