/** The pool of proof-of-work blocks of an epoch: the objects of greatest height, the chain walk
    that accounts rewards, and the choice of the most difficult chain. */
module PowPool {
  import opened Blocks

  const TWO32: nat := 0x1_0000_0000
  const N_POW_BLOCK_PER_EPOCH: nat := 60
  const MAX_N_POW_BLOCK_PER_EPOCH: nat := 3000

  /** `handle` is the object's identity; `difficulty` is the genesis target over its own. */
  datatype PowObj = PowObj(handle: nat, id: nat, prev: nat, height: nat, difficulty: nat, beneficiary: nat, raw: nat, nonce: nat)

  datatype Pool = Pool(objs: map<nat, PowObj>, height: nat, latest: seq<PowObj>, kframe: Option<PowObj>)

  const EMPTY: Pool := Pool(map[], 0, [], None)

  // ---------- adding and removing ----------

  function Mark(p: Pool, o: PowObj): Pool {
    if o.height > p.height then p.(height := o.height, latest := [o])
    else if o.height == p.height then p.(latest := p.latest + [o])
    else p
  }

  function Insert(p: Pool, o: PowObj): Pool {
    if o.id in p.objs then p else Mark(p.(objs := p.objs[o.id := o]), o)
  }

  datatype Op = Kframe(o: PowObj) | Add(o: PowObj) | Remove(id: nat) | Flush

  function Apply(p: Pool, op: Op): Pool {
    match op
    case Kframe(o) => if p.kframe.Some? then p else Insert(p, o).(kframe := Some(o))
    case Add(o) => if p.kframe.None? then p else Insert(p, o)
    case Remove(id) => p.(objs := p.objs - {id})
    case Flush => EMPTY
  }

  function Run(ops: seq<Op>): Pool {
    if ops == [] then EMPTY else Apply(Run(ops[..|ops| - 1]), ops[|ops| - 1])
  }

  /** The objects put in since the last flush, in order. */
  function Inserted(ops: seq<Op>): seq<PowObj> {
    if ops == [] then []
    else
      var init, op := ops[..|ops| - 1], ops[|ops| - 1];
      var p := Run(init);
      match op
      case Kframe(o) => if p.kframe.None? && o.id !in p.objs then Inserted(init) + [o] else Inserted(init)
      case Add(o) => if p.kframe.Some? && o.id !in p.objs then Inserted(init) + [o] else Inserted(init)
      case Remove(_) => Inserted(init)
      case Flush => []
  }

  predicate Greatest(height: nat, os: seq<PowObj>) {
    (forall k :: 0 <= k < |os| ==> os[k].height <= height) &&
    (os == [] ==> height == 0) &&
    (os != [] ==> exists k :: 0 <= k < |os| && os[k].height == height)
  }

  function AtHeight(os: seq<PowObj>, height: nat): seq<PowObj> {
    if os == [] then []
    else AtHeight(os[..|os| - 1], height) + if os[|os| - 1].height == height then [os[|os| - 1]] else []
  }

  lemma {:induction false} NoneAbove(os: seq<PowObj>, height: nat)
    requires forall k :: 0 <= k < |os| ==> os[k].height < height
    ensures AtHeight(os, height) == []
  {
    if os != [] {
      NoneAbove(os[..|os| - 1], height);
    }
  }

  predicate MarkerRight(p: Pool, os: seq<PowObj>) {
    Greatest(p.height, os) && p.latest == AtHeight(os, p.height)
  }

  lemma AtHeightSnoc(os: seq<PowObj>, o: PowObj, height: nat)
    ensures AtHeight(os + [o], height) == AtHeight(os, height) + if o.height == height then [o] else []
  {
    assert (os + [o])[..|os|] == os;
  }

  lemma GreatestSnoc(height: nat, os: seq<PowObj>, o: PowObj)
    requires Greatest(height, os)
    ensures Greatest(if o.height > height then o.height else height, os + [o])
  {
    var more := os + [o];
    assert more[|os|] == o;
    if o.height <= height && os != [] {
      var k :| 0 <= k < |os| && os[k].height == height;
      assert more[k].height == height;
    }
  }

  lemma MarkSnoc(p: Pool, os: seq<PowObj>, o: PowObj)
    requires MarkerRight(p, os)
    ensures MarkerRight(Mark(p, o), os + [o])
  {
    GreatestSnoc(p.height, os, o);
    AtHeightSnoc(os, o, Mark(p, o).height);
    if o.height > p.height {
      NoneAbove(os, o.height);
    }
  }

  /** After any run the marker holds exactly the objects of greatest height put in since the last
      flush, in the order they came. */
  lemma {:induction false} MarkerIsGreatest(ops: seq<Op>)
    ensures MarkerRight(Run(ops), Inserted(ops))
  {
    if ops != [] {
      var init, op := ops[..|ops| - 1], ops[|ops| - 1];
      MarkerIsGreatest(init);
      var p := Run(init);
      if op.Kframe? || op.Add? {
        MarkSnoc(p, Inserted(init), op.o);
      }
    }
  }

  /** The first kframe offered since the last flush. */
  function FirstKframe(ops: seq<Op>): Option<PowObj> {
    if ops == [] then None
    else
      var before, op := FirstKframe(ops[..|ops| - 1]), ops[|ops| - 1];
      if op.Flush? then None else if op.Kframe? && before.None? then Some(op.o) else before
  }

  lemma {:induction false} KframeIsFirst(ops: seq<Op>)
    ensures Run(ops).kframe == FirstKframe(ops)
  {
    if ops != [] {
      KframeIsFirst(ops[..|ops| - 1]);
    }
  }

  /** The operation at `k` offers an object with this id that is taken: the first kframe, or any object
      after it. */
  predicate Offers(ops: seq<Op>, k: nat, id: nat)
    requires k < |ops|
  {
    match ops[k]
    case Kframe(o) => o.id == id && FirstKframe(ops[..k]).None?
    case Add(o) => o.id == id && FirstKframe(ops[..k]).Some?
    case Remove(_) => false
    case Flush => false
  }

  predicate Drops(op: Op, id: nat) {
    op == Flush || op == Remove(id)
  }

  /** It was offered at `k` and neither removed nor flushed since. */
  predicate OfferedAt(ops: seq<Op>, k: nat, id: nat) {
    k < |ops| && Offers(ops, k, id) && forall j :: k < j < |ops| ==> !Drops(ops[j], id)
  }

  /** After any run the pool holds exactly the ids that were offered when they could be taken, and
      neither removed nor flushed since. */
  lemma {:induction false} HeldIff(ops: seq<Op>, id: nat)
    ensures id in Run(ops).objs <==> exists k: nat :: OfferedAt(ops, k, id)
  {
    if ops != [] {
      var init, last := ops[..|ops| - 1], |ops| - 1;
      HeldIff(init, id);
      KframeIsFirst(init);
      if Offers(ops, last, id) {
        assert OfferedAt(ops, last, id);
      }
      if k: nat :| OfferedAt(init, k, id) && !Drops(ops[last], id) {
        assert init[..k] == ops[..k];
        assert OfferedAt(ops, k, id);
      }
      if k: nat :| OfferedAt(ops, k, id) && k < last {
        assert init[..k] == ops[..k];
        assert OfferedAt(init, k, id);
      }
    }
  }

  predicate NoRemoval(ops: seq<Op>) {
    forall k :: 0 <= k < |ops| ==> !ops[k].Remove?
  }

  /** The pool holds exactly these objects, each under its own id. */
  predicate Holds(p: Pool, os: seq<PowObj>) {
    (forall k :: 0 <= k < |os| ==> os[k].id in p.objs && p.objs[os[k].id] == os[k]) &&
    (forall id :: id in p.objs ==> p.objs[id] in os && p.objs[id].id == id)
  }

  lemma HoldsSnoc(p: Pool, os: seq<PowObj>, o: PowObj)
    requires Holds(p, os) && o.id !in p.objs
    ensures Holds(Insert(p, o), os + [o])
  {
    var q, more := Insert(p, o), os + [o];
    assert q.objs == p.objs[o.id := o];
    assert more[|os|] == o;
    forall id | id in q.objs
      ensures q.objs[id] in more && q.objs[id].id == id
    {
      if id != o.id {
        assert p.objs[id] in os;
      }
    }
  }

  /** Without removals, what was put in is what the pool holds, so the marker's objects are the
      highest in the pool. */
  lemma {:induction false} InsertedIsHeld(ops: seq<Op>)
    requires NoRemoval(ops)
    ensures Holds(Run(ops), Inserted(ops))
  {
    if ops != [] {
      var init, op := ops[..|ops| - 1], ops[|ops| - 1];
      InsertedIsHeld(init);
      if (op.Kframe? || op.Add?) && op.o.id !in Run(init).objs {
        HoldsSnoc(Run(init), Inserted(init), op.o);
      }
    }
  }

  // ---------- the chain walk ----------

  function Get(p: Pool, id: nat): Option<PowObj> {
    if id in p.objs then Some(p.objs[id]) else None
  }

  predicate AtKframe(p: Pool, prev: Option<PowObj>) {
    prev.Some? && p.kframe.Some? && prev.value.handle == p.kframe.value.handle
  }

  /** The objects visited from `prev` back, at most `interval` of them, stopping at the kframe. */
  function Walk(p: Pool, prev: Option<PowObj>, interval: nat): seq<PowObj>
    decreases interval
  {
    if prev.None? || AtKframe(p, prev) || interval == 0 then []
    else [prev.value] + Walk(p, Get(p, prev.value.prev), interval - 1)
  }

  /** The height gap in 32 bits, cut off at 3000. */
  function Interval(height: nat, kframe: nat): nat
    requires height < TWO32 && kframe < TWO32
  {
    var gap := (height - kframe) % TWO32;
    if gap > MAX_N_POW_BLOCK_PER_EPOCH then MAX_N_POW_BLOCK_PER_EPOCH else gap
  }

  datatype PowResult = PowResult(nonce: nat, rewards: seq<(nat, nat)>, difficulties: nat, raw: seq<nat>)

  predicate Fits(p: Pool, o: PowObj) {
    o.height < TWO32 && p.kframe.Some? && p.kframe.value.height < TWO32
  }

  /** The objects an account starting at `o` covers, newest first. */
  function Covered(p: Pool, o: PowObj): seq<PowObj>
    requires Fits(p, o)
  {
    [o] + Walk(p, Get(p, o.prev), Interval(o.height, p.kframe.value.height))
  }

  function Sum(os: seq<PowObj>): nat {
    if os == [] then 0 else Sum(os[..|os| - 1]) + os[|os| - 1].difficulty
  }

  function Reward(coef: nat, o: PowObj): (nat, nat) {
    (o.beneficiary, coef * o.difficulty)
  }

  /** The account of a list of objects. */
  function Account(coef: nat, nonce: nat, os: seq<PowObj>): PowResult {
    PowResult(nonce, seq(|os|, k requires 0 <= k < |os| => Reward(coef, os[k])), Sum(os),
              seq(|os|, k requires 0 <= k < |os| => os[k].raw))
  }

  /** The walk came to the kframe or used up its interval. */
  predicate Complete(p: Pool, o: PowObj)
    requires Fits(p, o)
  {
    var os := Covered(p, o);
    AtKframe(p, Get(p, os[|os| - 1].prev)) || |os| == 1 + Interval(o.height, p.kframe.value.height)
  }

  function Total(rewards: seq<(nat, nat)>): nat {
    if rewards == [] then 0 else Total(rewards[..|rewards| - 1]) + rewards[|rewards| - 1].1
  }

  lemma {:induction false} RewardsOfSum(coef: nat, nonce: nat, os: seq<PowObj>)
    ensures Total(Account(coef, nonce, os).rewards) == coef * Sum(os)
  {
    if os != [] {
      var init := os[..|os| - 1];
      RewardsOfSum(coef, nonce, init);
      assert Account(coef, nonce, os).rewards[..|init|] == Account(coef, nonce, init).rewards;
    }
  }

  /** Each object is the stored predecessor of the one before. */
  predicate HashLinked(p: Pool, os: seq<PowObj>) {
    forall k :: 0 < k < |os| ==> Get(p, os[k - 1].prev) == Some(os[k]) && !AtKframe(p, Some(os[k]))
  }

  lemma {:induction false} WalkLinked(p: Pool, o: PowObj, interval: nat)
    ensures HashLinked(p, [o] + Walk(p, Get(p, o.prev), interval))
    ensures |Walk(p, Get(p, o.prev), interval)| <= interval
    decreases interval
  {
    var prev := Get(p, o.prev);
    if !(prev.None? || AtKframe(p, prev) || interval == 0) {
      WalkLinked(p, prev.value, interval - 1);
      var rest := [prev.value] + Walk(p, Get(p, prev.value.prev), interval - 1);
      assert Walk(p, prev, interval) == rest;
      forall k | 0 < k < |[o] + rest|
        ensures Get(p, ([o] + rest)[k - 1].prev) == Some(([o] + rest)[k]) && !AtKframe(p, Some(([o] + rest)[k]))
      {
        if k > 1 {
          assert ([o] + rest)[k - 1] == rest[k - 2] && ([o] + rest)[k] == rest[k - 1];
        }
      }
    }
  }

  /** Every account pays the coefficient times its total difficulty, one reward and one raw block
      per object, along a hash-linked chain no longer than the height gap and the cap allow. */
  lemma AccountIsFair(p: Pool, o: PowObj, coef: nat)
    requires Fits(p, o)
    ensures var os := Covered(p, o);
      var r := Account(coef, o.nonce, os);
      Total(r.rewards) == coef * r.difficulties && |r.rewards| == |r.raw| == |os| &&
      HashLinked(p, os) && os[0] == o && |os| <= 1 + Interval(o.height, p.kframe.value.height) &&
      r.nonce == o.nonce &&
      forall k :: 0 <= k < |os| ==> r.rewards[k] == (os[k].beneficiary, coef * os[k].difficulty) && r.raw[k] == os[k].raw
  {
    RewardsOfSum(coef, o.nonce, Covered(p, o));
    WalkLinked(p, o, Interval(o.height, p.kframe.value.height));
  }

  // ---------- when an account is complete ----------

  /** The number of blocks an account may hold besides its first: the height gap to the kframe, but
      no more than 3000; below the kframe the 32-bit gap is cut off at 3000 too. */
  function Room(p: Pool, o: PowObj): nat
    requires Fits(p, o)
  {
    var top, low := o.height, p.kframe.value.height;
    if top < low then (if top + TWO32 - low > 3000 then 3000 else top + TWO32 - low)
    else if top - low > 3000 then 3000
    else top - low
  }

  lemma RoomIsInterval(p: Pool, o: PowObj)
    requires Fits(p, o)
    ensures Room(p, o) == Interval(o.height, p.kframe.value.height)
  {
  }

  /** The previous hash of `a` leads to `b` in the pool, and `b` is not the kframe. */
  predicate LeadsTo(p: Pool, a: PowObj, b: PowObj) {
    a.prev in p.objs && p.objs[a.prev] == b && (p.kframe.Some? ==> b.handle != p.kframe.value.handle)
  }

  /** Following the previous hashes in the pool from `c[0]` gives `c`. */
  predicate Descent(p: Pool, c: seq<PowObj>) {
    c != [] && forall k :: 0 < k < |c| ==> LeadsTo(p, c[k - 1], c[k])
  }

  /** Such a descent ends right above the kframe. */
  predicate OnKframe(p: Pool, c: seq<PowObj>) {
    Descent(p, c) && p.kframe.Some? &&
    c[|c| - 1].prev in p.objs && p.objs[c[|c| - 1].prev].handle == p.kframe.value.handle
  }

  /** Its next block is missing. */
  predicate Broken(p: Pool, c: seq<PowObj>) {
    Descent(p, c) && c[|c| - 1].prev !in p.objs
  }

  lemma DescentTail(p: Pool, c: seq<PowObj>)
    requires Descent(p, c) && |c| > 1
    ensures Descent(p, c[1..])
  {
    forall k | 0 < k < |c[1..]|
      ensures LeadsTo(p, c[1..][k - 1], c[1..][k])
    {
      assert LeadsTo(p, c[k], c[k + 1]);
    }
  }

  lemma {:induction false} WalkFollows(p: Pool, c: seq<PowObj>, interval: nat)
    requires p.kframe.Some? && Descent(p, c) && |c| <= 1 + interval
    requires |c| == 1 + interval || OnKframe(p, c) || Broken(p, c)
    ensures [c[0]] + Walk(p, Get(p, c[0].prev), interval) == c
    decreases interval
  {
    if |c| == 1 {
      assert Walk(p, Get(p, c[0].prev), interval) == [];
    } else {
      var rest := c[1..];
      assert LeadsTo(p, c[0], c[1]);
      DescentTail(p, c);
      WalkFollows(p, rest, interval - 1);
      assert c == [c[0]] + rest && rest == [c[1]] + Walk(p, Get(p, c[1].prev), interval - 1);
    }
  }

  /** An object linked in the pool down to the kframe, by no more blocks than there is room for, is
      accounted with exactly those blocks. */
  lemma KframeChainIsComplete(p: Pool, c: seq<PowObj>)
    requires OnKframe(p, c) && Fits(p, c[0]) && |c| <= 1 + Room(p, c[0])
    ensures Complete(p, c[0]) && Covered(p, c[0]) == c
  {
    RoomIsInterval(p, c[0]);
    WalkFollows(p, c, Room(p, c[0]));
  }

  /** So is one that fills the room, wherever it stands then. */
  lemma FullChainIsComplete(p: Pool, c: seq<PowObj>)
    requires Descent(p, c) && Fits(p, c[0]) && |c| == 1 + Room(p, c[0])
    ensures Complete(p, c[0]) && Covered(p, c[0]) == c
  {
    RoomIsInterval(p, c[0]);
    WalkFollows(p, c, Room(p, c[0]));
  }

  /** A block missing before either makes it incomplete. */
  lemma BrokenChainIsIncomplete(p: Pool, c: seq<PowObj>)
    requires Broken(p, c) && Fits(p, c[0]) && |c| <= Room(p, c[0])
    ensures !Complete(p, c[0]) && Covered(p, c[0]) == c
  {
    RoomIsInterval(p, c[0]);
    WalkFollows(p, c, Room(p, c[0]));
  }

  /** `c` descends from `o` to the kframe within the room, or fills the room. */
  predicate Accounts(p: Pool, o: PowObj, c: seq<PowObj>)
    requires Fits(p, o)
  {
    Descent(p, c) && c[0] == o && (|c| == 1 + Room(p, o) || (|c| <= 1 + Room(p, o) && OnKframe(p, c)))
  }

  ghost predicate Accountable(p: Pool, o: PowObj)
    requires Fits(p, o)
  {
    exists c :: Accounts(p, o, c)
  }

  lemma CoveredDescends(p: Pool, o: PowObj)
    requires Fits(p, o)
    ensures Descent(p, Covered(p, o)) && Covered(p, o)[0] == o && |Covered(p, o)| <= 1 + Room(p, o)
  {
    RoomIsInterval(p, o);
    WalkLinked(p, o, Room(p, o));
    var c := Covered(p, o);
    forall k | 0 < k < |c|
      ensures LeadsTo(p, c[k - 1], c[k])
    {
      assert Get(p, c[k - 1].prev) == Some(c[k]);
    }
  }

  /** Exactly these objects have a complete account. */
  lemma CompleteIff(p: Pool, o: PowObj)
    requires Fits(p, o)
    ensures Complete(p, o) <==> Accountable(p, o)
  {
    if c :| Accounts(p, o, c) {
      if OnKframe(p, c) {
        KframeChainIsComplete(p, c);
      } else {
        FullChainIsComplete(p, c);
      }
    } else if Complete(p, o) {
      RoomIsInterval(p, o);
      CoveredDescends(p, o);
      assert Accounts(p, o, Covered(p, o));
    }
  }

  lemma WalkStep(p: Pool, done: seq<PowObj>, prev: Option<PowObj>, interval: nat)
    requires interval > 0 && prev.Some? && !AtKframe(p, prev)
    ensures done + Walk(p, prev, interval) == (done + [prev.value]) + Walk(p, Get(p, prev.value.prev), interval - 1)
  {
  }

  lemma AccountSnoc(coef: nat, nonce: nat, os: seq<PowObj>, o: PowObj)
    ensures var a := Account(coef, nonce, os);
      Account(coef, nonce, os + [o]) ==
      PowResult(nonce, a.rewards + [Reward(coef, o)], a.difficulties + o.difficulty, a.raw + [o.raw])
  {
    assert (os + [o])[..|os|] == os;
  }

  // ---------- the decision ----------

  /** `i` is the first of the most difficult complete chains among the first `n` latest objects. */
  predicate MostDifficult(p: Pool, n: nat, i: nat)
    requires AllFit(p) && i < n <= |p.latest|
  {
    Complete(p, p.latest[i]) &&
    forall k :: 0 <= k < n && Complete(p, p.latest[k]) ==>
      Sum(Covered(p, p.latest[k])) <= Sum(Covered(p, p.latest[i])) &&
      (k < i ==> Sum(Covered(p, p.latest[k])) < Sum(Covered(p, p.latest[i])))
  }

  predicate AllFit(p: Pool) {
    forall k :: 0 <= k < |p.latest| ==> Fits(p, p.latest[k])
  }

  lemma AllCompleteIff(p: Pool)
    requires AllFit(p)
    ensures forall k :: 0 <= k < |p.latest| ==> (Complete(p, p.latest[k]) <==> Accountable(p, p.latest[k]))
  {
    forall k | 0 <= k < |p.latest|
      ensures Complete(p, p.latest[k]) <==> Accountable(p, p.latest[k])
    {
      CompleteIff(p, p.latest[k]);
    }
  }

  predicate Decides(p: Pool, n: nat, i: nat, coef: nat, r: PowResult)
    requires AllFit(p) && i < n <= |p.latest|
  {
    MostDifficult(p, n, i) && r == Account(coef, p.latest[i].nonce, Covered(p, p.latest[i]))
  }

  /** No descent that could be accounted from a latest object has more difficulty than the one
      decided for, which is itself such a descent. */
  lemma DecisionIsHardest(p: Pool, i: nat, coef: nat, r: PowResult, k: nat, c: seq<PowObj>)
    requires AllFit(p) && i < |p.latest| && k < |p.latest| && Decides(p, |p.latest|, i, coef, r)
    requires Accounts(p, p.latest[k], c)
    ensures Sum(c) <= r.difficulties
    ensures Accounts(p, p.latest[i], Covered(p, p.latest[i])) && r.difficulties == Sum(Covered(p, p.latest[i]))
  {
    if OnKframe(p, c) {
      KframeChainIsComplete(p, c);
    } else {
      FullChainIsComplete(p, c);
    }
    RoomIsInterval(p, p.latest[i]);
    CoveredDescends(p, p.latest[i]);
  }

  lemma OneMore(p: Pool, n: nat, i: nat, j: nat, coef: nat, r: PowResult, q: PowResult)
    requires AllFit(p) && i < n < |p.latest| && Decides(p, n, i, coef, r)
    requires j == n || j == i
    requires j == n ==> Complete(p, p.latest[n]) && q == Account(coef, p.latest[n].nonce, Covered(p, p.latest[n])) &&
                        q.difficulties > r.difficulties
    requires j == i ==> q == r && (Complete(p, p.latest[n]) ==> Sum(Covered(p, p.latest[n])) <= r.difficulties)
    ensures Decides(p, n + 1, j, coef, q)
  {
  }

  // ---------- the pool object ----------

  class PowObjectMap {
    var objs: map<nat, PowObj>
    var height: nat
    var latest: seq<PowObj>
    var kframe: Option<PowObj>

    function View(): Pool
      reads this
    {
      Pool(objs, height, latest, kframe)
    }

    constructor ()
      ensures View() == EMPTY
    {
      objs, height, latest, kframe := map[], 0, [], None;
    }

    method Update(o: PowObj)
      modifies this`height, this`latest
      ensures View() == Mark(old(View()), o)
    {
      if o.height > height {
        height := o.height;
        latest := [o];
      } else if o.height == height {
        latest := latest + [o];
      }
    }

    method PutIn(o: PowObj)
      modifies this
      ensures View() == Insert(old(View()), o)
    {
      if o.id in objs {
        return;
      }
      objs := objs[o.id := o];
      Update(o);
    }

    /** The result says whether the object was taken. */
    method InitialAddKframe(o: PowObj) returns (ok: bool)
      modifies this
      ensures View() == Apply(old(View()), Kframe(o))
      ensures ok == old(kframe).None?
    {
      if kframe.Some? {
        return false;
      }
      PutIn(o);
      kframe := Some(o);
      return true;
    }

    method AddObject(o: PowObj) returns (ok: bool)
      modifies this
      ensures View() == Apply(old(View()), Add(o))
      ensures ok == old(kframe).Some?
    {
      if kframe.None? {
        return false;
      }
      if o.id in objs {
        return true;
      }
      PutIn(o);
      return true;
    }

    method RemoveObject(id: nat) returns (found: bool)
      modifies this
      ensures View() == Apply(old(View()), Remove(id))
      ensures found == (id in old(objs))
    {
      if id in objs {
        objs := objs - {id};
        return true;
      }
      assert objs - {id} == objs;
      return false;
    }

    method Clear()
      modifies this
      ensures View() == EMPTY
    {
      objs, height, latest, kframe := map[], 0, [], None;
    }

    /** Walk back from an object and account for every block on the way. */
    method FillLatestObjChain(o: PowObj, coef: nat) returns (r: PowResult, complete: bool)
      requires Fits(View(), o)
      ensures r == Account(coef, o.nonce, Covered(View(), o))
      ensures complete == Complete(View(), o)
    {
      ghost var p := View();
      r := PowResult(o.nonce, [Reward(coef, o)], o.difficulty, [o.raw]);
      var prev := if o.prev in objs then Some(objs[o.prev]) else None;
      var interval := Interval(o.height, kframe.value.height);
      ghost var done, whole := [o], interval;
      assert r == Account(coef, o.nonce, [o]) by {
        AccountSnoc(coef, o.nonce, [], o);
      }
      while prev.Some? && prev.value.handle != kframe.value.handle && interval > 0
        invariant done != [] && done + Walk(p, prev, interval) == Covered(p, o)
        invariant r == Account(coef, o.nonce, done)
        invariant prev == Get(p, done[|done| - 1].prev)
        invariant |done| + interval == 1 + whole
        decreases interval
      {
        WalkStep(p, done, prev, interval);
        AccountSnoc(coef, o.nonce, done, prev.value);
        r := PowResult(r.nonce, r.rewards + [Reward(coef, prev.value)], r.difficulties + prev.value.difficulty,
                       r.raw + [prev.value.raw]);
        done := done + [prev.value];
        prev := if prev.value.prev in objs then Some(objs[prev.value.prev]) else None;
        interval := interval - 1;
      }
      assert Walk(p, prev, interval) == [] && done + [] == done;
      complete := (prev.Some? && prev.value.handle == kframe.value.handle) || interval == 0;
    }

    /** A decision is made exactly when the latest objects are at least sixty blocks above the kframe
        and one of them is linked down to it, or fills its room, and then for the first of the most
        difficult ones. */
    method GetPowDecision(coef: nat) returns (r: Option<PowResult>, choice: nat)
      requires kframe.Some? ==> AllFit(View())
      ensures r.Some? <==>
        kframe.Some? && height >= kframe.value.height + 60 && exists k :: 0 <= k < |latest| && Accountable(View(), latest[k])
      ensures r.Some? ==> choice < |latest| && Decides(View(), |latest|, choice, coef, r.value)
    {
      ghost var p := View();
      r, choice := None, 0;
      if kframe.None? {
        return None, 0;
      }
      if height < kframe.value.height || height - kframe.value.height < N_POW_BLOCK_PER_EPOCH {
        return None, 0;
      }
      for n := 0 to |latest|
        invariant r.None? ==> forall k :: 0 <= k < n ==> !Complete(p, latest[k])
        invariant r.Some? ==> choice < n && Decides(p, n, choice, coef, r.value)
      {
        var result, complete := FillLatestObjChain(latest[n], coef);
        if !complete {
          if r.Some? {
            OneMore(p, n, choice, choice, coef, r.value, r.value);
          }
          continue;
        }
        var next := if r.None? || result.difficulties > r.value.difficulties then n else choice;
        if r.Some? {
          OneMore(p, n, choice, next, coef, r.value, if next == n then result else r.value);
        }
        if next == n {
          r, choice := Some(result), n;
        }
      }
      AllCompleteIff(p);
    }
  }
}
