/** When the search for the last common block ends above 2^31, in terms of numbers known before it
    starts. */
module SyncBounds {
  import opened Blocks
  import opened Headers
  import opened Sync
  import opened Quorum

  // ---------- orbits in a finite range ----------

  /** `x` after `k` steps of `f`. */
  function Orbit(f: nat -> nat, x: nat, k: nat): nat {
    if k == 0 then x else f(Orbit(f, x, k - 1))
  }

  lemma {:induction false} OrbitAlike(f: nat -> nat, x: nat, i: nat, j: nat, d: nat)
    requires Orbit(f, x, i) == Orbit(f, x, j)
    ensures Orbit(f, x, i + d) == Orbit(f, x, j + d)
  {
    if d > 0 {
      OrbitAlike(f, x, i, j, d - 1);
    }
  }

  function Points(f: nat -> nat, x: nat, k: nat): set<nat> {
    set j: nat | j < k :: Orbit(f, x, j)
  }

  lemma {:induction false} PointsSize(f: nat -> nat, x: nat, k: nat)
    requires forall i: nat, j: nat :: i < j < k ==> Orbit(f, x, i) != Orbit(f, x, j)
    ensures |Points(f, x, k)| == k
  {
    if k > 0 {
      PointsSize(f, x, k - 1);
      assert Points(f, x, k) == Points(f, x, k - 1) + {Orbit(f, x, k - 1)};
    }
  }

  /** Before the first point at which `g` passes `top` no point repeats, so it comes within `n`
      steps when all points are below `n`. */
  lemma FirstIsEarly(f: nat -> nat, g: nat -> nat, x: nat, top: nat, k: nat, n: nat)
    requires g(Orbit(f, x, k)) > top && forall j: nat :: j < k ==> g(Orbit(f, x, j)) <= top
    requires forall j: nat :: Orbit(f, x, j) < n
    ensures k <= n
  {
    forall i: nat, j: nat | i < j < k
      ensures Orbit(f, x, i) != Orbit(f, x, j)
    {
      if Orbit(f, x, i) == Orbit(f, x, j) {
        OrbitAlike(f, x, i, j, k - j);
        assert false;
      }
    }
    PointsSize(f, x, k);
    SubsetSize(Points(f, x, k), Committee(n));
  }

  /** The highest value of `g` on the first `k + 1` points. */
  function Highest(f: nat -> nat, g: nat -> nat, x: nat, k: nat): nat {
    var here := g(Orbit(f, x, k));
    if k == 0 then here
    else
      var before := Highest(f, g, x, k - 1);
      if before > here then before else here
  }

  lemma {:induction false} HighestCovers(f: nat -> nat, g: nat -> nat, x: nat, k: nat, j: nat)
    requires j <= k
    ensures g(Orbit(f, x, j)) <= Highest(f, g, x, k)
    decreases k
  {
    if j < k {
      HighestCovers(f, g, x, k - 1, j);
    }
  }

  lemma {:induction false} HighestReached(f: nat -> nat, g: nat -> nat, x: nat, k: nat) returns (j: nat)
    ensures j <= k && g(Orbit(f, x, j)) == Highest(f, g, x, k)
  {
    j := k;
    if Highest(f, g, x, k) != g(Orbit(f, x, k)) {
      j := HighestReached(f, g, x, k - 1);
    }
  }

  // ---------- the peak of the climb ----------

  predicate High(start: nat, head: nat) {
    start < head && TWO31 < head < TWO32
  }

  function MidTo(head: nat): nat -> nat
    requires TWO31 < head < TWO32
  {
    (s: nat) => if s < head then Mid(s, head) else 0
  }

  function NextTo(head: nat): nat -> nat
    requires TWO31 < head < TWO32
  {
    (s: nat) => if s < head then Mid(s, head) + 1 else 0
  }

  lemma {:induction false} ClimbIsOrbit(start: nat, head: nat, k: nat)
    requires High(start, head)
    ensures Climb(start, head, k) == Orbit(NextTo(head), start, k)
  {
    if k > 0 {
      ClimbIsOrbit(start, head, k - 1);
    }
  }

  lemma MidIsOrbit(start: nat, head: nat, k: nat)
    requires High(start, head)
    ensures Mid(Climb(start, head, k), head) == MidTo(head)(Orbit(NextTo(head), start, k))
    ensures Orbit(NextTo(head), start, k) < head
  {
    ClimbIsOrbit(start, head, k);
  }

  /** The highest midpoint of a climb from `start`, among the first `head + 1`. */
  function Peak(start: nat, head: nat): nat
    requires High(start, head)
  {
    Highest(NextTo(head), MidTo(head), start, head)
  }

  lemma PeakPassedEarly(start: nat, head: nat, top: nat, k: nat)
    requires High(start, head) && Below(start, head, top, k) && Mid(Climb(start, head, k), head) > top
    ensures top < Peak(start, head)
  {
    var f, g := NextTo(head), MidTo(head);
    forall j: nat
      ensures Orbit(f, start, j) < head && Mid(Climb(start, head, j), head) == g(Orbit(f, start, j))
    {
      MidIsOrbit(start, head, j);
    }
    FirstIsEarly(f, g, start, top, k, head);
    HighestCovers(f, g, start, head, k);
  }

  /** Above 2^31 the search ends exactly when the last agreed number lies below the peak, which
      depends on its start and the head alone. */
  lemma HuntEndsIffBelowPeak(peer: Peer, head: nat, top: nat, start: nat)
    requires AgreeUpTo(peer, head, top) && start <= top && High(top, head)
    ensures (exists result :: EndsWith(peer, Hunting(start, head, 0), result)) <==> top < Peak(start, head)
  {
    HuntEndsIff(peer, head, top, start);
    if k: nat :| Mid(Climb(start, head, k), head) > top {
      var first := FirstAbove(start, head, top, k);
      PeakPassedEarly(start, head, top, first);
    } else {
      var j := HighestReached(NextTo(head), MidTo(head), start, head);
      MidIsOrbit(start, head, j);
    }
  }

  // ---------- a bound in closed form ----------

  lemma {:induction false} ClimbShift(start: nat, head: nat, k: nat)
    requires High(start, head) && High(Mid(start, head) + 1, head)
    ensures Climb(start, head, k + 1) == Climb(Mid(start, head) + 1, head, k)
  {
    if k > 0 {
      ClimbShift(start, head, k - 1);
    } else {
      assert Climb(start, head, 1) == Mid(Climb(start, head, 0), head) + 1;
    }
  }

  /** Below the last 32-bit number the starts come down until the sum no longer wraps. */
  lemma {:induction false} ClimbComesDown(start: nat, head: nat) returns (k: nat)
    requires High(start, head) && head < TWO32 - 1
    ensures Climb(start, head, k) + head < TWO32
    decreases start
  {
    k := 0;
    if start + head >= TWO32 {
      var next := Mid(start, head) + 1;
      assert next < start;
      k := ClimbComesDown(next, head);
      ClimbShift(start, head, k);
      k := k + 1;
    }
  }

  /** In particular it ends when the last agreed number is below half of the head, unless the head
      is the last 32-bit number. */
  lemma LowTopEnds(peer: Peer, head: nat, top: nat, start: nat)
    requires AgreeUpTo(peer, head, top) && start <= top < head / 2 && TWO31 < head < TWO32 - 1
    ensures exists result :: EndsWith(peer, Hunting(start, head, 0), result)
  {
    var k := ClimbComesDown(start, head);
    assert Mid(Climb(start, head, k), head) > top;
    HuntEndsIff(peer, head, top, start);
  }
}
