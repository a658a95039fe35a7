/** Passing a proposal on: each committee member relays it to a few others, by position relative
    to the round's proposer. */
module Relay {

  const FAN: nat := 8

  function Wrap(k: nat, size: nat): (r: nat)
    requires size > 0
    ensures r < size
  {
    k % size
  }

  lemma WrapOnce(k: nat, size: nat)
    requires k < 2 * size
    ensures Wrap(k, size) == if k < size then k else k - size
  {
    if k >= size {
      assert k == size * 1 + (k - size);
    }
  }

  /** The `count` positions after `base`, round the committee. */
  function Peers(base: nat, count: nat, size: nat): (r: seq<nat>)
    requires size > 0
  {
    seq<nat>(count, i requires 0 <= i < count => Wrap(base + i + 1, size))
  }

  function CeilDiv(a: nat, b: nat): nat
    requires b > 0
  {
    (a + b - 1) / b
  }

  function Limit1(size: nat): nat {
    CeilDiv(size, 8) * 2
  }

  function Limit2(size: nat): nat {
    Limit1(size) + CeilDiv(size, 4) * 4
  }

  /** Relative positions that relative position `me` passes on to. */
  function RelayPeers(me: nat, size: nat): seq<nat> {
    if me > size || size == 0 then []
    else if size <= FAN then Peers(me, size, size)
    else if me < Limit1(size) then Peers(me * 8, 8, size)
    else Peers(8 * Limit1(size) + (me - Limit1(size)) * 4, 4, size)
  }

  /** Up to eight members everyone passes on to everyone. In a larger committee position `me` passes
      on to the eight positions below it in a tree of eight, the upper quarter of the positions, and
      everyone else to the next four; all round the committee. */
  lemma RelayPeersAt(me: nat, size: nat, k: nat)
    requires me <= size && size > 0
    ensures var peers := RelayPeers(me, size);
      var upper := 2 * ((size + 7) / 8);
      |peers| == (if size <= 8 then size else if me < upper then 8 else 4) &&
      (k < |peers| ==>
        peers[k] == (if size <= 8 then me + 1 + k else if me < upper then 8 * me + 1 + k
                     else 8 * upper + 4 * (me - upper) + 1 + k) % size)
    ensures RelayPeers(size + 1 + k, size) == []
  {
    var upper := 2 * ((size + 7) / 8);
    assert Limit1(size) == upper;
    var base := if size <= 8 then me else if me < upper then me * 8 else 8 * upper + (me - upper) * 4;
    var count := if size <= 8 then size else if me < upper then 8 else 4;
    assert RelayPeers(me, size) == Peers(base, count, size);
    if k < count {
      assert Peers(base, count, size)[k] == Wrap(base + k + 1, size);
    }
  }

  /** The last layer, from the second limit on, is always empty. */
  lemma NoThirdLayer(me: nat, size: nat)
    requires me <= size && size > 0
    ensures me < Limit2(size)
  {
  }

  /** Every later position is fed by an earlier one: itself less one over eight, and everyone by
      the proposer when the committee is small. */
  lemma FedBy(j: nat, size: nat)
    requires 0 < j < size
    ensures size <= FAN ==> j in RelayPeers(0, size)
    ensures size > FAN ==> (j - 1) / 8 < j && j in RelayPeers((j - 1) / 8, size)
  {
    if size <= FAN {
      WrapOnce(j, size);
      assert Peers(0, size, size)[j - 1] == j;
    } else {
      var m := (j - 1) / 8;
      WrapOnce(j, size);
      assert m < Limit1(size);
      assert Peers(m * 8, 8, size)[j - 1 - m * 8] == j;
    }
  }

  // ---------- absolute positions ----------

  function Relative(index: nat, round: nat, size: nat): nat
    requires index < size
  {
    var rr := Wrap(round, size);
    if index >= rr then index - rr else index + size - rr
  }

  function Absolute(i: nat, round: nat, size: nat): nat
    requires size > 0
  {
    var k := i + Wrap(round, size);
    if k >= size then Wrap(k, size) else k
  }

  /** Positions relative to the proposer and committee indexes name each other. */
  lemma RotationInverts(x: nat, round: nat, size: nat)
    requires x < size
    ensures Relative(x, round, size) < size && Absolute(Relative(x, round, size), round, size) == x
    ensures Absolute(x, round, size) < size && Relative(Absolute(x, round, size), round, size) == x
  {
    WrapOnce(x + Wrap(round, size), size);
    WrapOnce(Relative(x, round, size) + Wrap(round, size), size);
  }

  lemma ProposerIsFirst(round: nat, size: nat)
    requires size > 0
    ensures Wrap(round, size) < size && Relative(Wrap(round, size), round, size) == 0
  {
  }

  /** The committee indexes that `index` relays to in `round`. */
  function RelayTargets(index: nat, round: nat, size: nat): seq<nat>
    requires index < size
  {
    var rel := RelayPeers(Relative(index, round, size), size);
    seq<nat>(|rel|, k requires 0 <= k < |rel| => Absolute(rel[k], round, size))
  }

  /** Holding the proposal after `hops` passes, starting from the round's proposer. */
  ghost predicate Reached(v: nat, round: nat, size: nat, hops: nat)
    decreases hops
  {
    v < size &&
    (v == Wrap(round, size) ||
     (hops > 0 && exists u :: 0 <= u < size && Reached(u, round, size, hops - 1) && v in RelayTargets(u, round, size)))
  }

  lemma TargetOf(u: nat, j: nat, round: nat, size: nat)
    requires u < size && j < size && j in RelayPeers(Relative(u, round, size), size)
    ensures Absolute(j, round, size) in RelayTargets(u, round, size)
  {
    var rel := RelayPeers(Relative(u, round, size), size);
    var k :| 0 <= k < |rel| && rel[k] == j;
    assert RelayTargets(u, round, size)[k] == Absolute(j, round, size);
  }

  function Pow8(d: nat): nat {
    if d == 0 then 1 else 8 * Pow8(d - 1)
  }

  /** Relative position `j` holds the proposal after `d` passes as soon as 8^d exceeds it. */
  lemma {:induction false} ReachedWithin(j: nat, round: nat, size: nat, d: nat)
    requires j < size && j < Pow8(d)
    ensures Absolute(j, round, size) < size && Reached(Absolute(j, round, size), round, size, d)
    decreases d
  {
    RotationInverts(j, round, size);
    if j == 0 {
      ProposerIsFirst(round, size);
      RotationInverts(Wrap(round, size), round, size);
    } else {
      FedBy(j, size);
      var m := if size > FAN then (j - 1) / 8 else 0;
      assert m < Pow8(d - 1);
      RotationInverts(m, round, size);
      var u := Absolute(m, round, size);
      ReachedWithin(m, round, size, d - 1);
      TargetOf(u, j, round, size);
    }
  }

  /** For every committee size and round, following the relays from the proposer reaches every
      member, within `d` passes whenever the size is at most 8^d. */
  lemma RelayCovers(v: nat, round: nat, size: nat, d: nat)
    requires v < size <= Pow8(d)
    ensures Reached(v, round, size, d)
  {
    RotationInverts(v, round, size);
    ReachedWithin(Relative(v, round, size), round, size, d);
  }

  // ---------- the loops ----------

  method CalcRelayPeers(me: nat, size: nat) returns (peers: seq<nat>)
    ensures peers == RelayPeers(me, size)
  {
    peers := [];
    if me > size {
      return;
    }
    var base, replicas := me, size;
    if size > 8 {
      var limit1 := CeilDiv(size, 8) * 2;
      ghost var limit2 := limit1 + CeilDiv(size, 4) * 4;
      if me < limit1 {
        base, replicas := me * 8, 8;
      } else {
        NoThirdLayer(me, size);
        assert me < limit2;
        base, replicas := 8 * limit1 + (me - limit1) * 4, 4;
      }
    }
    for i := 1 to replicas + 1
      invariant size > 0 || i == 1
      invariant |peers| == i - 1 && forall k :: 0 <= k < i - 1 ==> size > 0 && peers[k] == Wrap(base + k + 1, size)
    {
      peers := peers + [Wrap(base + i, size)];
    }
  }

  method GetRelayPeers(index: nat, round: nat, size: nat) returns (targets: seq<nat>)
    requires size > 0 ==> index < size
    ensures size == 0 ==> targets == []
    ensures size > 0 ==> targets == RelayTargets(index, round, size)
  {
    targets := [];
    if size == 0 {
      return;
    }
    var rr := Wrap(round, size);
    var me := if index >= rr then index - rr else index + size - rr;
    var indexes := CalcRelayPeers(me, size);
    for n := 0 to |indexes|
      invariant |targets| == n && forall k :: 0 <= k < n ==> targets[k] == Absolute(indexes[k], round, size)
    {
      var k := indexes[n] + rr;
      targets := targets + [if k >= size then Wrap(k, size) else k];
    }
  }
}
