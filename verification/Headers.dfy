/** Stored block headers linked by parent id, and the search for the fork point of two heads. */
module Headers {
  import opened Blocks

  const TWO32: nat := 0x1_0000_0000

  /** The first bytes of an id are the block number, so ids compare by number, then by hash. */
  datatype Id = Id(num: nat, hash: nat)

  predicate Less(a: Id, b: Id) {
    a.num < b.num || (a.num == b.num && a.hash < b.hash)
  }

  /** `rest` stands for the receipts root and the timestamp. */
  datatype Header = Header(id: Id, parent: Id, score: nat, rest: nat, sig: nat)

  /** A block's number is one more than its parent's in 32 bits; the genesis block names a
      parent numbered 2^32 - 1. */
  predicate Formed(h: Header) {
    h.id.num == (h.parent.num + 1) % TWO32 && h.parent.num < TWO32
  }

  type Store = map<Id, Header>

  /** Headers are kept under their own ids, and no block has the number of genesis' parent. */
  predicate Sound(store: Store) {
    forall id :: id in store ==> store[id].id == id && Formed(store[id]) && id.num < TWO32 - 1
  }

  lemma ParentNumber(store: Store, h: Header)
    requires Sound(store) && Formed(h) && h.parent in store
    ensures store[h.parent].id == h.parent && Formed(store[h.parent]) && h.id.num == h.parent.num + 1
  {
  }

  /** The stored ancestors of `h`, oldest first, ending in `h` itself. */
  function Chain(store: Store, h: Header): (r: seq<Header>)
    requires Sound(store) && Formed(h)
    ensures r != [] && r[|r| - 1] == h
    decreases h.id.num
  {
    if h.parent in store then Chain(store, store[h.parent]) + [h] else [h]
  }

  /** Numbers along a chain are consecutive, and each link is the stored parent. */
  lemma {:induction false} ChainNumbers(store: Store, h: Header)
    requires Sound(store) && Formed(h)
    ensures forall k :: 0 <= k < |Chain(store, h)| ==> Chain(store, h)[k].id.num + (|Chain(store, h)| - 1 - k) == h.id.num
    ensures forall k :: 0 <= k < |Chain(store, h)| ==> Formed(Chain(store, h)[k])
    decreases h.id.num
  {
    if h.parent in store {
      ChainNumbers(store, store[h.parent]);
    }
  }

  /** Cutting a chain leaves the chain of the block it was cut at. */
  lemma {:induction false} ChainPrefix(store: Store, h: Header, k: nat)
    requires Sound(store) && Formed(h) && k < |Chain(store, h)|
    ensures Formed(Chain(store, h)[k])
    ensures Chain(store, Chain(store, h)[k]) == Chain(store, h)[..k + 1]
    decreases h.id.num
  {
    var a := Chain(store, h);
    if k == |a| - 1 {
      assert a[..k + 1] == a;
    } else {
      ChainPrefix(store, store[h.parent], k);
      assert a[..k + 1] == Chain(store, store[h.parent])[..k + 1];
    }
  }

  /** Below the top, the next element is the stored parent; at the bottom there is none. */
  lemma ChainParent(store: Store, h: Header, k: nat)
    requires Sound(store) && Formed(h) && k < |Chain(store, h)|
    ensures Chain(store, h)[k].parent in store <==> k > 0
    ensures k > 0 ==> store[Chain(store, h)[k].parent] == Chain(store, h)[k - 1]
  {
    ChainPrefix(store, h, k);
    var a, x := Chain(store, h), Chain(store, h)[k];
    assert |Chain(store, x)| == k + 1;
    if x.parent in store {
      assert Chain(store, x) == Chain(store, store[x.parent]) + [x];
      assert Chain(store, x)[k - 1] == store[x.parent];
    }
  }

  datatype Fork = Fork(ancestor: Header, trunk: seq<Header>, branch: seq<Header>)

  /** Two chains have a block in common. */
  predicate Meeting(A: seq<Header>, B: seq<Header>) {
    exists i, j :: 0 <= i < |A| && 0 <= j < |B| && A[i].id == B[j].id
  }

  predicate Disjoint(s: seq<Header>, t: seq<Header>) {
    forall i, j :: 0 <= i < |s| && 0 <= j < |t| ==> s[i].id != t[j].id
  }

  /** Trunk and branch are exactly what lies above the ancestor on the two chains, oldest first,
      and share no block: the ancestor is the lowest common one. */
  predicate Forked(A: seq<Header>, B: seq<Header>, f: Fork) {
    var i, j := |A| - 1 - |f.trunk|, |B| - 1 - |f.branch|;
    0 <= i && 0 <= j && A[i] == f.ancestor && A[i].id == B[j].id &&
    f.trunk == A[i + 1..] && f.branch == B[j + 1..] && Disjoint(f.trunk, f.branch)
  }

  predicate Meet(store: Store, a: Header, b: Header)
    requires Sound(store) && Formed(a) && Formed(b)
  {
    Meeting(Chain(store, a), Chain(store, b))
  }

  predicate IsFork(store: Store, a: Header, b: Header, f: Fork)
    requires Sound(store) && Formed(a) && Formed(b)
  {
    Forked(Chain(store, a), Chain(store, b), f)
  }

  predicate Numbered(A: seq<Header>) {
    forall p, q :: 0 <= p < q < |A| ==> A[p].id.num < A[q].id.num
  }

  /** A whole stored chain: each link is the stored parent, and the first has none. */
  predicate Linked(store: Store, A: seq<Header>) {
    Numbered(A) &&
    (forall k :: 0 <= k < |A| ==> (A[k].parent in store <==> k > 0)) &&
    (forall k :: 0 < k < |A| ==> A[k].parent in store && store[A[k].parent] == A[k - 1])
  }

  lemma ChainLinked(store: Store, h: Header)
    requires Sound(store) && Formed(h)
    ensures Linked(store, Chain(store, h))
  {
    ChainNumbers(store, h);
    forall k | 0 <= k < |Chain(store, h)|
      ensures Chain(store, h)[k].parent in store <==> k > 0
      ensures k > 0 ==> Chain(store, h)[k].parent in store && store[Chain(store, h)[k].parent] == Chain(store, h)[k - 1]
    {
      ChainParent(store, h, k);
    }
  }

  lemma ForkNotShorter(A: seq<Header>, B: seq<Header>, f: Fork, g: Fork)
    requires Numbered(A) && Numbered(B) && Forked(A, B, f) && Forked(A, B, g)
    ensures |f.trunk| <= |g.trunk|
  {
    if |f.trunk| > |g.trunk| {
      assert false;
    }
  }

  /** The fork of two heads is unique. */
  lemma ForkIsUnique(store: Store, a: Header, b: Header, f: Fork, g: Fork)
    requires Sound(store) && Formed(a) && Formed(b)
    requires IsFork(store, a, b, f) && IsFork(store, a, b, g)
    ensures f == g
  {
    var A, B := Chain(store, a), Chain(store, b);
    ChainLinked(store, a);
    ChainLinked(store, b);
    ForkNotShorter(A, B, f, g);
    ForkNotShorter(A, B, g, f);
    var i, j, k := |A| - 1 - |f.trunk|, |B| - 1 - |f.branch|, |B| - 1 - |g.branch|;
    assert B[j].id == A[i].id == B[k].id;
    assert j == k;
  }

  method Reverse(s: seq<Header>) returns (r: seq<Header>)
    ensures |r| == |s| && forall k :: 0 <= k < |s| ==> r[k] == s[|s| - 1 - k]
  {
    r := s;
    var i, j := 0, |s| - 1;
    while i < j
      invariant 0 <= i <= j + 1 <= |s| == |r| && i + j == |s| - 1
      invariant forall k :: i <= k <= j ==> r[k] == s[k]
      invariant forall k :: 0 <= k < i || j < k < |s| ==> r[k] == s[|s| - 1 - k]
    {
      r := r[i := s[j]][j := s[i]];
      i, j := i + 1, j - 1;
    }
  }

  /** Nothing that position `i` of one chain or `j` of the other has passed is common. */
  ghost predicate Passed(A: seq<Header>, B: seq<Header>, i: int, j: int) {
    forall p, q :: 0 <= p < |A| && 0 <= q < |B| && (p > i || q > j) ==> A[p].id != B[q].id
  }

  /** The walk has collected the chain above position `i`, newest first. */
  ghost predicate Collected(A: seq<Header>, i: int, taken: seq<Header>) {
    -1 <= i < |A| && |taken| == |A| - 1 - i && forall k :: 0 <= k < |taken| ==> taken[k] == A[|A| - 1 - k]
  }

  lemma PassHigher(A: seq<Header>, B: seq<Header>, i: int, j: int)
    requires Numbered(B) && 0 <= i < |A| && 0 <= j < |B| && Passed(A, B, i, j)
    requires A[i].id != B[j].id && A[i].id.num >= B[j].id.num
    ensures Passed(A, B, i - 1, j)
  {
    forall p, q | 0 <= p < |A| && 0 <= q < |B| && (p > i - 1 || q > j)
      ensures A[p].id != B[q].id
    {
      if p == i && q < j {
        assert B[q].id.num < B[j].id.num;
      }
    }
  }

  lemma PassedBoth(A: seq<Header>, B: seq<Header>, i: int, j: int)
    requires Numbered(A) && Numbered(B) && 0 <= i < |A| && 0 <= j < |B| && Passed(A, B, i, j) && A[i].id != B[j].id
    ensures A[i].id.num >= B[j].id.num ==> Passed(A, B, i - 1, j)
    ensures A[i].id.num <= B[j].id.num ==> Passed(A, B, i, j - 1)
    ensures A[i].id.num == B[j].id.num ==> Passed(A, B, i - 1, j - 1)
  {
    if A[i].id.num >= B[j].id.num {
      PassHigher(A, B, i, j);
    }
    if A[i].id.num <= B[j].id.num {
      assert Passed(B, A, j, i);
      PassHigher(B, A, j, i);
      assert Passed(A, B, i, j - 1);
    }
  }

  lemma ForkFound(A: seq<Header>, B: seq<Header>, i: int, j: int, f: Fork)
    requires Passed(A, B, i, j) && 0 <= i < |A| && 0 <= j < |B| && A[i].id == B[j].id && f.ancestor == A[i]
    requires f.trunk == A[i + 1..] && f.branch == B[j + 1..]
    ensures Meeting(A, B) && Forked(A, B, f)
  {
    forall p, q | 0 <= p < |f.trunk| && 0 <= q < |f.branch|
      ensures f.trunk[p].id != f.branch[q].id
    {
      assert f.trunk[p] == A[i + 1 + p] && f.branch[q] == B[j + 1 + q];
    }
  }

  /** Walk both heads down their chains, the higher one first, until they meet. */
  method WalkDown(store: Store, trunkHead: Header, branchHead: Header, ghost A: seq<Header>, ghost B: seq<Header>)
    returns (r: Option<Fork>)
    requires Linked(store, A) && A != [] && A[|A| - 1] == trunkHead
    requires Linked(store, B) && B != [] && B[|B| - 1] == branchHead
    ensures r.Some? <==> Meeting(A, B)
    ensures r.Some? ==> Forked(A, B, r.value)
  {
    ghost var i, j := |A| - 1, |B| - 1;
    var trunk: seq<Header>, branch: seq<Header> := [], [];
    var b1, b2 := trunkHead, branchHead;
    while true
      invariant 0 <= i < |A| && 0 <= j < |B| && b1 == A[i] && b2 == B[j]
      invariant Collected(A, i, trunk) && Collected(B, j, branch)
      invariant Passed(A, B, i, j)
      decreases i + j
    {
      if b1.id != b2.id {
        PassedBoth(A, B, i, j);
      }
      if b1.id.num > b2.id.num {
        trunk := trunk + [b1];
        if b1.parent !in store {
          return None;
        }
        b1, i := store[b1.parent], i - 1;
        continue;
      }
      if b1.id.num < b2.id.num {
        branch := branch + [b2];
        if b2.parent !in store {
          return None;
        }
        b2, j := store[b2.parent], j - 1;
        continue;
      }
      if b1.id == b2.id {
        var t := Reverse(trunk);
        var b := Reverse(branch);
        assert t == A[i + 1..] && b == B[j + 1..];
        ForkFound(A, B, i, j, Fork(b1, t, b));
        return Some(Fork(b1, t, b));
      }
      trunk, branch := trunk + [b1], branch + [b2];
      if b1.parent !in store {
        return None;
      }
      if b2.parent !in store {
        return None;
      }
      b1, b2, i, j := store[b1.parent], store[b2.parent], i - 1, j - 1;
    }
  }

  /** The search ends, finds the fork of any two heads that have one, and reports an error for
      any that do not. */
  method BuildFork(store: Store, trunkHead: Header, branchHead: Header) returns (r: Option<Fork>)
    requires Sound(store) && Formed(trunkHead) && Formed(branchHead)
    ensures r.Some? <==> Meet(store, trunkHead, branchHead)
    ensures r.Some? ==> IsFork(store, trunkHead, branchHead, r.value)
  {
    ChainLinked(store, trunkHead);
    ChainLinked(store, branchHead);
    r := WalkDown(store, trunkHead, branchHead, Chain(store, trunkHead), Chain(store, branchHead));
  }
}
