/** Reading the chain forward from any stored position. */
module BlockReader {
  import opened Blocks
  import opened Headers
  import opened ChainStore
  import opened TrunkIndex

  /** What one read gives: blocks with an obsolete mark, and the position it leaves behind. A read
      that fails gives no blocks but has moved its position. */
  datatype Reading = Reading(blocks: seq<(Header, bool)>, position: Id, failed: bool)

  function NextBlock(store: Store, index: map<nat, Id>, position: Id, passed: seq<(Header, bool)>): Reading {
    if position.num + 1 !in index then Reading([], position, true)
    else
      var next := index[position.num + 1];
      if next in store then Reading(passed + [(store[next], false)], next, false) else Reading([], position, true)
  }

  function Height(store: Store, id: Id): nat {
    if id in store then id.num + 1 else 0
  }

  /** Step back over obsolete blocks to the index, then one block forward. */
  function ReadFrom(store: Store, bestNum: nat, index: map<nat, Id>, position: Id, passed: seq<(Header, bool)>): Reading
    requires Sound(store)
    decreases Height(store, position)
  {
    if position !in store then Reading([], position, true)
    else
      var here := store[position];
      if position.num > bestNum then ReadFrom(store, bestNum, index, here.parent, passed + [(here, true)])
      else if position.num !in index then Reading([], position, true)
      else if index[position.num] == position then NextBlock(store, index, position, passed)
      else ReadFrom(store, bestNum, index, here.parent, passed + [(here, true)])
  }

  /** A block above the best one, or not the indexed one, is obsolete and passed over. */
  predicate PassedOver(bestNum: nat, index: map<nat, Id>, position: Id) {
    position.num > bestNum || (position.num in index && index[position.num] != position)
  }

  lemma PassOver(store: Store, bestNum: nat, index: map<nat, Id>, position: Id, passed: seq<(Header, bool)>)
    requires Sound(store) && position in store && PassedOver(bestNum, index, position)
    ensures ReadFrom(store, bestNum, index, position, passed) ==
      ReadFrom(store, bestNum, index, store[position].parent, passed + [(store[position], true)])
    ensures Height(store, store[position].parent) < Height(store, position)
  {
  }

  function Read(c: State, position: Id): Reading
    requires Valid(c)
  {
    if c.best.id == position then Reading([], position, false)
    else ReadFrom(c.store, c.best.id.num, c.index, position, [])
  }

  /** The best block, and so every trunk block, is stored. */
  predicate Whole(c: State) {
    c.best.id in c.store && c.store[c.best.id] == c.best
  }

  lemma TrunkAt(c: State, g: Header, k: nat)
    requires Rooted(c, g) && Agrees(c) && Whole(c) && k <= c.best.id.num
    ensures |Trunk(c)| == c.best.id.num + 1 && Trunk(c)[k].id.num == k
    ensures k in c.index && c.index[k] == Trunk(c)[k].id
    ensures Trunk(c)[k].id in c.store && c.store[Trunk(c)[k].id] == Trunk(c)[k]
  {
    ChainFromGenesis(c.store, g, c.best);
    if k < c.best.id.num {
      StoredOnTrunk(c, g, k);
    }
  }

  /** On the trunk, a read gives exactly the next trunk block. */
  lemma ReadOnTrunk(c: State, g: Header, k: nat)
    requires Rooted(c, g) && Agrees(c) && Whole(c) && k < c.best.id.num
    ensures |Trunk(c)| == c.best.id.num + 1
    ensures Read(c, Trunk(c)[k].id) == Reading([(Trunk(c)[k + 1], false)], Trunk(c)[k + 1].id, false)
  {
    TrunkAt(c, g, k);
    TrunkAt(c, g, k + 1);
  }

  // ---------- off the trunk ----------

  /** The blocks of a branch as obsolete, newest first. */
  function Obsolete(branch: seq<Header>): seq<(Header, bool)> {
    if branch == [] then [] else [(branch[|branch| - 1], true)] + Obsolete(branch[..|branch| - 1])
  }

  /** Position `k` holds the block numbered `k`. */
  predicate ByNumber(A: seq<Header>) {
    forall k :: 0 <= k < |A| ==> A[k].id.num == k
  }

  lemma ChainByNumber(store: Store, g: Header, h: Header)
    requires RootedStore(store, g) && Anchored(store, g, h)
    ensures |Chain(store, h)| == h.id.num + 1 && ByNumber(Chain(store, h))
  {
    ChainFromGenesis(store, g, h);
    ChainNumbers(store, h);
  }

  /** The top of the branch is not what the trunk's index has at its number. */
  lemma TopOfBranch(A: seq<Header>, B: seq<Header>, f: Fork, index: map<nat, Id>)
    requires ByNumber(A) && ByNumber(B) && Names(index, A) && B != [] && Forked(A, B, f)
    ensures f.branch == [] ==> |A| == |B| + |f.trunk| && A[|B| - 1].id == B[|B| - 1].id
    ensures f.branch != [] ==> f.branch[|f.branch| - 1] == B[|B| - 1]
    ensures f.branch != [] && |B| <= |A| ==> index[|B| - 1] != B[|B| - 1].id
  {
    var i, j := |A| - 1 - |f.trunk|, |B| - 1 - |f.branch|;
    assert A[i].id.num == i && B[j].id.num == j;
    if f.branch != [] && |B| <= |A| {
      assert A[|B| - 1] == f.trunk[|B| - 1 - i - 1];
      assert B[|B| - 1] == f.branch[|f.branch| - 1];
    }
  }

  lemma BranchBelow(c: State, g: Header, x: Header, f: Fork)
    requires Rooted(c, g) && x.id in c.store && c.store[x.id] == x
    requires IsFork(c.store, c.best, x, f) && f.branch != []
    ensures x.parent in c.store
    ensures IsFork(c.store, c.best, c.store[x.parent], f.(branch := f.branch[..|f.branch| - 1]))
  {
    var A, B := Trunk(c), Chain(c.store, x);
    ChainFromGenesis(c.store, g, x);
    ForkedBelow(A, B, f);
    assert B[..|B| - 1] == Chain(c.store, c.store[x.parent]);
  }

  lemma ForkedBelow(A: seq<Header>, B: seq<Header>, f: Fork)
    requires Forked(A, B, f) && f.branch != []
    ensures |B| > 1 && Forked(A, B[..|B| - 1], f.(branch := f.branch[..|f.branch| - 1]))
  {
    var C, h := B[..|B| - 1], f.(branch := f.branch[..|f.branch| - 1]);
    var j := |B| - 1 - |f.branch|;
    assert h.branch == B[j + 1..][..|f.branch| - 1] == B[j + 1..|B| - 1] == C[j + 1..];
    assert Disjoint(h.trunk, h.branch) by {
      forall p, q | 0 <= p < |h.trunk| && 0 <= q < |h.branch|
        ensures h.trunk[p].id != h.branch[q].id
      {
        assert h.branch[q] == f.branch[q];
      }
    }
  }

  lemma ReadAtFork(c: State, g: Header, x: Header, f: Fork, passed: seq<(Header, bool)>)
    requires Rooted(c, g) && Agrees(c) && Whole(c) && x.id in c.store && c.store[x.id] == x
    requires IsFork(c.store, c.best, x, f) && f.branch == []
    ensures x.id == f.ancestor.id && x.id.num + |f.trunk| == c.best.id.num
    ensures ReadFrom(c.store, c.best.id.num, c.index, x.id, passed) == NextBlock(c.store, c.index, x.id, passed)
  {
    var A, B, k := Trunk(c), Chain(c.store, x), x.id.num;
    ChainByNumber(c.store, g, c.best);
    ChainByNumber(c.store, g, x);
    TopOfBranch(A, B, f, c.index);
    TrunkAt(c, g, k);
  }

  lemma ReadAboveFork(c: State, g: Header, x: Header, f: Fork, passed: seq<(Header, bool)>)
    requires Rooted(c, g) && Agrees(c) && Whole(c) && x.id in c.store && c.store[x.id] == x
    requires IsFork(c.store, c.best, x, f) && f.branch != []
    ensures f.branch[|f.branch| - 1] == x && x.parent in c.store
    ensures ReadFrom(c.store, c.best.id.num, c.index, x.id, passed) ==
      ReadFrom(c.store, c.best.id.num, c.index, x.parent, passed + [(x, true)])
  {
    var A, B, k := Trunk(c), Chain(c.store, x), x.id.num;
    ChainByNumber(c.store, g, c.best);
    ChainByNumber(c.store, g, x);
    TopOfBranch(A, B, f, c.index);
    BranchBelow(c, g, x, f);
    if k <= c.best.id.num {
      TrunkAt(c, g, k);
    }
  }

  /** From any stored position a read passes over the abandoned branch, newest block first and
      marked obsolete, down to its fork with the best block, and goes on from there by the index. */
  lemma {:induction false} ReadToFork(c: State, g: Header, x: Header, f: Fork, passed: seq<(Header, bool)>)
    requires Rooted(c, g) && Agrees(c) && Whole(c) && x.id in c.store && c.store[x.id] == x
    requires IsFork(c.store, c.best, x, f)
    ensures ReadFrom(c.store, c.best.id.num, c.index, x.id, passed) ==
      NextBlock(c.store, c.index, f.ancestor.id, passed + Obsolete(f.branch))
    decreases |f.branch|
  {
    if f.branch == [] {
      ReadAtFork(c, g, x, f, passed);
      assert passed + Obsolete(f.branch) == passed;
    } else {
      ReadAboveFork(c, g, x, f, passed);
      BranchBelow(c, g, x, f);
      ParentNumber(c.store, x);
      var below := f.(branch := f.branch[..|f.branch| - 1]);
      ReadToFork(c, g, c.store[x.parent], below, passed + [(x, true)]);
      assert passed + Obsolete(f.branch) == passed + [(x, true)] + Obsolete(below.branch);
    }
  }

  /** The fork point is on the trunk, below its upper part. */
  lemma ForkOnTrunk(c: State, g: Header, x: Header, f: Fork)
    requires Rooted(c, g) && x.id in c.store && c.store[x.id] == x && IsFork(c.store, c.best, x, f)
    ensures f.ancestor.id.num + |f.trunk| == c.best.id.num
    ensures |Trunk(c)| == c.best.id.num + 1 && f.trunk == Trunk(c)[f.ancestor.id.num + 1..]
  {
    ChainByNumber(c.store, g, c.best);
  }

  /** Off the trunk, what comes next is the first trunk block above the fork. */
  lemma ReadOffTrunk(c: State, g: Header, x: Header, f: Fork, passed: seq<(Header, bool)>)
    requires Rooted(c, g) && Agrees(c) && Whole(c) && x.id in c.store && c.store[x.id] == x
    requires IsFork(c.store, c.best, x, f) && f.trunk != []
    ensures ReadFrom(c.store, c.best.id.num, c.index, x.id, passed) ==
      Reading(passed + Obsolete(f.branch) + [(f.trunk[0], false)], f.trunk[0].id, false)
  {
    ReadToFork(c, g, x, f, passed);
    ForkOnTrunk(c, g, x, f);
    TrunkAt(c, g, f.ancestor.id.num + 1);
  }

  /** Above the best block there is no such block. The read goes back to the best block and on to
      whatever was indexed last after it: the block it just gave as obsolete comes again as fresh
      when it is that one, and the read fails when there is none. */
  lemma ReadAboveBest(c: State, g: Header, x: Header, f: Fork)
    requires Rooted(c, g) && Agrees(c) && Whole(c) && x.id in c.store && c.store[x.id] == x
    requires IsFork(c.store, c.best, x, f) && f.trunk == [] && f.branch != []
    ensures var above := c.best.id.num + 1;
      var gone := Obsolete(f.branch);
      Read(c, x.id) ==
        if above in c.index && c.index[above] in c.store
        then Reading(gone + [(c.store[c.index[above]], false)], c.index[above], false)
        else Reading([], f.ancestor.id, true)
    ensures f.ancestor.id.num == c.best.id.num && f.branch[0].id.num == c.best.id.num + 1
    ensures c.best.id.num + 1 in c.index && c.index[c.best.id.num + 1] == f.branch[0].id ==>
      Read(c, x.id).blocks == Obsolete(f.branch) + [(f.branch[0], false)]
  {
    ReadToFork(c, g, x, f, []);
    ForkOnTrunk(c, g, x, f);
    var B := Chain(c.store, x);
    ChainByNumber(c.store, g, x);
    ChainByNumber(c.store, g, c.best);
    var j := |B| - 1 - |f.branch|;
    assert f.branch[0] == B[j + 1] && B[j].id == f.ancestor.id;
    assert [] + Obsolete(f.branch) == Obsolete(f.branch);
    BranchStored(c, x, j + 1);
  }

  lemma BranchStored(c: State, x: Header, k: nat)
    requires Valid(c) && x.id in c.store && c.store[x.id] == x && k < |Chain(c.store, x)|
    ensures Chain(c.store, x)[k].id in c.store && c.store[Chain(c.store, x)[k].id] == Chain(c.store, x)[k]
  {
    if k < |Chain(c.store, x)| - 1 {
      ChainParent(c.store, x, k + 1);
    }
  }

  // ---------- a reader beside a growing chain ----------

  datatype Feed = Feed(c: State, position: Id, got: seq<(Header, bool)>)

  datatype FeedEvent = Grow(e: Event) | Pull

  predicate Permitted(s: Feed, e: FeedEvent) {
    Valid(s.c) && (e.Grow? ==> Plain(s.c, e.e) && ExtendsBest(s.c, e.e) && Accepts(s.c, e.e))
  }

  function FeedStep(s: Feed, e: FeedEvent): Feed
    requires Permitted(s, e)
  {
    match e
    case Grow(a) => s.(c := Step(s.c, a))
    case Pull => var r := Read(s.c, s.position); s.(position := r.position, got := s.got + r.blocks)
  }

  predicate Feeds(s: Feed, es: seq<FeedEvent>)
    decreases |es|
  {
    es == [] || (Permitted(s, es[0]) && Feeds(FeedStep(s, es[0]), es[1..]))
  }

  function FeedRun(s: Feed, es: seq<FeedEvent>): Feed
    requires Feeds(s, es)
    decreases |es|
  {
    if es == [] then s else FeedRun(FeedStep(s, es[0]), es[1..])
  }

  function Fresh(hs: seq<Header>): seq<(Header, bool)> {
    seq(|hs|, k requires 0 <= k < |hs| => (hs[k], false))
  }

  /** The reader stands on the trunk and has been given every trunk block since `from`. */
  predicate UpToDate(s: Feed, g: Header, from: nat) {
    Rooted(s.c, g) && Agrees(s.c) && Whole(s.c) && |Trunk(s.c)| == s.c.best.id.num + 1 &&
    from <= s.position.num < |Trunk(s.c)| && Trunk(s.c)[s.position.num].id == s.position &&
    s.got == Fresh(Trunk(s.c)[from + 1..s.position.num + 1])
  }

  lemma GrowKeepsWhole(c: State, e: Event)
    requires Valid(c) && Plain(c, e) && Accepts(c, e) && Whole(c)
    ensures Whole(Step(c, e))
  {
    if e.Add? {
      NotKnownIsSame(c, e.h);
    }
  }

  lemma FreshSnoc(t: seq<Header>, from: nat, k: nat)
    requires from <= k && k + 1 < |t|
    ensures Fresh(t[from + 1..k + 2]) == Fresh(t[from + 1..k + 1]) + [(t[k + 1], false)]
  {
  }

  lemma GrowUpToDate(s: Feed, g: Header, from: nat, a: Event)
    requires UpToDate(s, g, from) && Permitted(s, Grow(a))
    ensures UpToDate(s.(c := Step(s.c, a)), g, from)
  {
    StraightStepAgrees(s.c, g, a);
    GrowKeepsWhole(s.c, a);
    var after := Step(s.c, a);
    ChainFromGenesis(after.store, g, after.best);
    PrefixSlice(Trunk(s.c), Trunk(after), from, s.position.num);
  }

  lemma PrefixSlice(t: seq<Header>, u: seq<Header>, from: nat, k: nat)
    requires t <= u && from <= k < |t|
    ensures u[k] == t[k] && u[from + 1..k + 1] == t[from + 1..k + 1]
  {
  }

  lemma PullGives(s: Feed, g: Header, from: nat)
    requires UpToDate(s, g, from) && s.position != s.c.best.id
    ensures s.position.num + 1 < |Trunk(s.c)|
    ensures var next := Trunk(s.c)[s.position.num + 1];
      next.id.num == s.position.num + 1 && FeedStep(s, Pull) == Feed(s.c, next.id, s.got + [(next, false)])
  {
    var k := s.position.num;
    assert k < s.c.best.id.num;
    ReadOnTrunk(s.c, g, k);
    TrunkAt(s.c, g, k + 1);
  }

  lemma PullUpToDate(s: Feed, g: Header, from: nat)
    requires UpToDate(s, g, from) && s.position != s.c.best.id
    ensures UpToDate(FeedStep(s, Pull), g, from)
    ensures FeedStep(s, Pull).position.num == s.position.num + 1
  {
    PullGives(s, g, from);
    FreshSnoc(Trunk(s.c), from, s.position.num);
  }

  /** One step keeps the reader up to date, and a read that is behind moves on by one block. */
  lemma FeedStepUpToDate(s: Feed, g: Header, from: nat, e: FeedEvent)
    requires UpToDate(s, g, from) && Permitted(s, e)
    ensures UpToDate(FeedStep(s, e), g, from)
    ensures e.Pull? && s.position != s.c.best.id ==> FeedStep(s, e).position.num == s.position.num + 1
  {
    match e
    case Grow(a) => GrowUpToDate(s, g, from, a);
    case Pull =>
      if s.position != s.c.best.id {
        PullUpToDate(s, g, from);
      }
  }

  /** However reading interleaves with blocks that extend the best one, the reader is given each
      later trunk block once, in order, and none is marked obsolete. */
  lemma {:induction false} ReaderSeesTrunk(s: Feed, g: Header, from: nat, es: seq<FeedEvent>)
    requires UpToDate(s, g, from) && Feeds(s, es)
    ensures UpToDate(FeedRun(s, es), g, from)
    decreases |es|
  {
    if es != [] {
      FeedStepUpToDate(s, g, from, es[0]);
      ReaderSeesTrunk(FeedStep(s, es[0]), g, from, es[1..]);
    }
  }

  /** A reader started at genesis of a newly opened chain is given the whole trunk up to where it
      stands. */
  lemma ReaderFromGenesis(g: Header, qc: nat, es: seq<FeedEvent>)
    requires Fits(g) && g.id.num == 0 && Feeds(Feed(Opened(g, qc), g.id, []), es)
    ensures UpToDate(FeedRun(Feed(Opened(g, qc), g.id, []), es), g, 0)
  {
    OpenedAgrees(g, qc);
    var s := Feed(Opened(g, qc), g.id, []);
    assert Trunk(s.c)[1..1] == [];
    assert UpToDate(s, g, 0);
    ReaderSeesTrunk(s, g, 0, es);
  }
}
