/** The two-thirds vote threshold and what any two quorums share. */
module Quorum {

  /** `math.Ceil` over the reals. */
  function Ceil(x: real): int {
    -((-x).Floor)
  }

  /** The threshold test: at least the ceiling of two thirds of the committee voted. */
  predicate MajorityTwoThird(voterNum: nat, committeeSize: nat) {
    committeeSize >= 1 &&
    voterNum >= Ceil(committeeSize as real * 2.0 / 3.0)
  }

  /** The largest number of arbitrary validators a committee of `n` is meant to tolerate. */
  function MaxFaulty(n: nat): nat
    requires n >= 1
  {
    (n - 1) / 3
  }

  /** The validator indices of a committee of size `n`. */
  function Committee(n: nat): (members: set<nat>)
    ensures forall i: nat :: i in members <==> i < n
    ensures |members| == n
  {
    if n == 0 then {} else Committee(n - 1) + {n - 1}
  }

  /** A set of committee members large enough to pass the threshold test. */
  predicate IsQuorum(s: set<nat>, n: nat) {
    s <= Committee(n) && MajorityTwoThird(|s|, n)
  }

  /** The floating-point ceiling amounts to integer arithmetic. */
  lemma MajorityIsIntegral(votes: nat, n: nat)
    ensures MajorityTwoThird(votes, n) <==> n >= 1 && 3 * votes >= 2 * n
  {
    var x := n as real * 2.0 / 3.0;
    var c := Ceil(x);
    assert (c - 1) as real < x <= c as real;
    assert 3.0 * x == (2 * n) as real;
  }

  lemma SubsetSize<T>(a: set<T>, b: set<T>)
    requires a <= b
    ensures |a| <= |b|
  {
    assert b == a + (b - a);
    assert |b| == |a| + |b - a|;
  }

  lemma InclusionExclusion<T>(a: set<T>, b: set<T>)
    ensures |a + b| == |a| + |b| - |a * b|
  {
    assert a + b == a + (b - a * b);
    assert |b - a * b| == |b| - |a * b| by {
      assert b == (b - a * b) + a * b;
    }
  }

  /** For every committee size, two quorums share more members than may be faulty. */
  lemma QuorumsOverlap(n: nat, a: set<nat>, b: set<nat>)
    requires IsQuorum(a, n) && IsQuorum(b, n)
    ensures |a * b| >= MaxFaulty(n) + 1
  {
    SubsetSize(a + b, Committee(n));
    InclusionExclusion(a, b);
    MajorityIsIntegral(|a|, n);
    MajorityIsIntegral(|b|, n);
  }

  /** So some validator outside any tolerated faulty set belongs to both. */
  lemma QuorumsShareHonest(n: nat, a: set<nat>, b: set<nat>, faulty: set<nat>) returns (v: nat)
    requires IsQuorum(a, n) && IsQuorum(b, n)
    requires |faulty| <= MaxFaulty(n)
    ensures v in a && v in b && v !in faulty
  {
    QuorumsOverlap(n, a, b);
    if a * b <= faulty {
      SubsetSize(a * b, faulty);
      assert false;
    }
    v :| v in a * b && v !in faulty;
  }
}
