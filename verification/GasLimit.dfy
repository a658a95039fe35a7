/** The block gas limit: how far it may move from block to block, and how fast it gets
    to a target. */
module GasLimit {

  const MIN_GAS_LIMIT: nat := 1_000_000
  const BOUND_DIVISOR: nat := 1024
  const TWO64: nat := 0x1_0000_0000_0000_0000
  const TWO63: nat := 0x8000_0000_0000_0000
  const MAX_UINT64: nat := TWO64 - 1

  type uint64 = x: nat | x < TWO64

  function Min64(a: uint64, b: uint64): uint64 {
    if a > b then b else a
  }

  /** Conversion of an unsigned to a signed 64-bit integer. */
  function ToInt64(x: uint64): int {
    if x < TWO63 then x else x - TWO64
  }

  /** Conversion of a signed to an unsigned 64-bit integer. */
  function ToUint64(x: int): uint64 {
    x % TWO64
  }

  predicate IsValid(gasLimit: uint64, parent: uint64) {
    gasLimit >= MIN_GAS_LIMIT &&
    (if gasLimit > parent then gasLimit - parent else parent - gasLimit) <= parent / BOUND_DIVISOR
  }

  function Adjust(gasLimit: uint64, delta: int): uint64 {
    var maxDiff := gasLimit / BOUND_DIVISOR;
    if delta > 0 then
      var diff := Min64(ToUint64(delta), maxDiff);
      if MAX_UINT64 - diff < gasLimit then MAX_UINT64 else gasLimit + diff
    else
      var diff := Min64(ToUint64(-delta), maxDiff);
      if ToUint64(MIN_GAS_LIMIT + diff) > gasLimit then MIN_GAS_LIMIT else gasLimit - diff
  }

  function Qualify(target: uint64, parent: uint64): uint64 {
    var maxDiff := parent / BOUND_DIVISOR;
    if target > parent then
      Adjust(parent, ToInt64(Min64(target - parent, maxDiff)))
    else
      Adjust(parent, -ToInt64(Min64(parent - target, maxDiff)))
  }

  function Goal(target: uint64): uint64 {
    if target < MIN_GAS_LIMIT then MIN_GAS_LIMIT else target
  }

  lemma Uint64Fits(x: int)
    requires 0 <= x < TWO64
    ensures ToUint64(x) == x
  {
  }

  /** An allowed increase that does not pass the type's maximum is made in full. */
  lemma AdjustUp(gasLimit: uint64, diff: uint64)
    requires 0 < diff <= gasLimit / BOUND_DIVISOR && gasLimit + diff <= MAX_UINT64
    ensures Adjust(gasLimit, diff) == gasLimit + diff
  {
    Uint64Fits(diff);
  }

  /** An allowed decrease is made in full unless it would pass the floor. */
  lemma AdjustDown(gasLimit: uint64, diff: uint64)
    requires diff <= gasLimit / BOUND_DIVISOR
    ensures Adjust(gasLimit, 0 - diff) == if MIN_GAS_LIMIT + diff > gasLimit then MIN_GAS_LIMIT else gasLimit - diff
  {
    Uint64Fits(diff);
    Uint64Fits(MIN_GAS_LIMIT + diff);
  }

  /** Above the floor, none of the conversions overflows: the limit moves straight towards
      the goal, by at most one 1024th, and never past it. */
  lemma QualifyStep(target: uint64, parent: uint64)
    requires parent >= MIN_GAS_LIMIT
    ensures var q := Qualify(target, parent);
      var goal := Goal(target);
      if parent <= goal then q == parent + Min64(goal - parent, parent / BOUND_DIVISOR)
      else q == parent - Min64(parent - goal, parent / BOUND_DIVISOR)
  {
    if target > parent {
      AdjustUp(parent, Min64(target - parent, parent / BOUND_DIVISOR));
    } else {
      AdjustDown(parent, Min64(parent - target, parent / BOUND_DIVISOR));
    }
  }

  /** The qualified limit passes validation exactly when the parent is at or above the
      floor, or close enough below it to be lifted over it. */
  lemma QualifyValidIff(target: uint64, parent: uint64)
    ensures IsValid(Qualify(target, parent), parent) <==>
      parent >= MIN_GAS_LIMIT ||
      (parent + parent / BOUND_DIVISOR >= MIN_GAS_LIMIT && (target >= MIN_GAS_LIMIT || target <= parent))
  {
    if parent >= MIN_GAS_LIMIT {
      QualifyStep(target, parent);
    } else if target > parent && parent >= BOUND_DIVISOR {
      AdjustUp(parent, Min64(target - parent, parent / BOUND_DIVISOR));
    } else {
      AdjustDown(parent, if target > parent then 0 else Min64(parent - target, parent / BOUND_DIVISOR));
    }
  }

  /** The limit after `blocks` blocks that all aim at `target`. */
  function After(target: uint64, start: uint64, blocks: nat): uint64 {
    if blocks == 0 then start else Qualify(target, After(target, start, blocks - 1))
  }

  /** The smallest allowed move at the floor. */
  const MIN_STEP: nat := MIN_GAS_LIMIT / BOUND_DIVISOR

  /** Towards a fixed target the limit moves monotonically, never overshoots, and covers at
      least the smallest step per block until it arrives. */
  lemma {:induction false} MovesTowardsGoal(target: uint64, start: uint64, blocks: nat)
    requires start >= MIN_GAS_LIMIT
    ensures var p := After(target, start, blocks);
      var goal := Goal(target);
      if start <= goal then start <= p <= goal && (p == goal || p >= start + blocks * MIN_STEP)
      else goal <= p <= start && (p == goal || p + blocks * MIN_STEP <= start)
  {
    if blocks > 0 {
      MovesTowardsGoal(target, start, blocks - 1);
      QualifyStep(target, After(target, start, blocks - 1));
    }
  }

  /** So it reaches the goal, and stays there, within an explicit number of blocks. */
  lemma ReachesGoal(target: uint64, start: uint64, blocks: nat)
    requires start >= MIN_GAS_LIMIT
    requires var goal := Goal(target);
      blocks * MIN_STEP >= if start <= goal then goal - start else start - goal
    ensures After(target, start, blocks) == Goal(target)
  {
    MovesTowardsGoal(target, start, blocks);
  }

  /** Each block's limit lies between its predecessor and the goal. */
  lemma NeverTurnsBack(target: uint64, start: uint64, blocks: nat)
    requires start >= MIN_GAS_LIMIT
    ensures var p, q := After(target, start, blocks), After(target, start, blocks + 1);
      var goal := Goal(target);
      (if start <= goal then p <= q <= goal else goal <= q <= p) && IsValid(q, p)
  {
    MovesTowardsGoal(target, start, blocks);
    QualifyStep(target, After(target, start, blocks));
    QualifyValidIff(target, After(target, start, blocks));
  }
}
